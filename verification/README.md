# A verified model of the kernel and its user tools

This project models an xv6-style RISC-V kernel and three of its user programs in Dafny and
proves what their code promises: for every input, every run, every interleaving. Code that
works by updating things in place is modelled by classes and loops, concurrent code by step
systems, pure code by functions.

## What is proved

- **Crash-safe log** (`LogSpec`, `LogProtocol`, `Log`). Crash atomicity of `commit` and of
  crashing recoveries; over every run of group commit the disk recovers to whole operations;
  the exact condition under which `log_write` can panic. `Log` runs the code on the buffer
  cache: it issues exactly the block writes that these theorems speak about, and the buffer of
  a logged block is not recycled before the block is installed, during commits included.
- **Buffer cache** (`BufferCache`). One buffer per nonzero block, a circular list of all
  buffers in order of last release, reads of the latest contents; no unwritten block is recycled
  exactly as long as callers write or log what they change before they release it.
- **Files** (`FsSpec`, `FsFiles`, `FsOps`, `FsWrites`, `FileSystem`, `Mkfs`, `MkfsLinks`). Bitmap, direct and indirect block
  numbers are in bijection; `readi` and `writei` are slicing and splicing of flat contents;
  how far a write gets is exact; `itrunc` frees exactly what a file owned; a chunk of `filewrite`
  fits a transaction. What mkfs makes of files that fit starts all this off, with the one
  exception below.
- **Directories** (`LinkSpec`, `Links`). Link counts are the number of entries, names are
  unique once cut, no live entry names a free inode, and `..` leads from every live directory to
  the root, across `create`, `link` and `unlink`.
- **Virtual memory** (`VmSpec`, `VmMem`, `VmCopy`, `VmCount`, `Vm`). Three-level page tables (Sv39, section
  4.4 of the RISC-V Privileged Architecture version 1.12) refine a map from page to entry;
  free pages, tables and frames stay a partition; failed growth and copy restore everything;
  a dying space returns each page once; user copies are byte-by-byte access.
- **Processes** (`Proc`, `ProcLife`, `Sleeplock`, `Pipe`). No lost wakeup, from processes or interrupt
  handlers, one CPU per process, live parents, zombies reaped once and never forgotten, kills heeded
  but for one window, nobody stuck but for a lock; mutual exclusion of sleep locks over the same
  steps; first in, first out.
- **Disk driver** (`VirtioSpec`, `Virtio`). The split virtqueue of section 2.6 and block
  requests of section 5.2 of VIRTIO v1.1: descriptors add up, rings are never overrun across
  16-bit wrap-around, a request returns only after its own completion.
- **User programs** (`MallocSpec`, `Malloc`, `Regex`, `ShellSpec`, `ShellGrammar`,
  `ShellRoundTrip`, `ShellLines`, `Shell`). The allocator's list, tiling and conservation; the matcher
  decides the declared language; the parser accepts exactly the grammar's lines, with their
  meaning, and undoes the printer.

## Where the code falls short of what it says

- kernel/param.h:9 lets an operation write up to MAXOPBLOCKS (10) blocks. With the
  log that mkfs makes, 10 blocks per operation can reach the panic of `log_write`; 9 cannot
  (`LogProtocol.MkfsLogCapacity`, exact condition in `NoPanic` and `PanicReachable`).
- Uniqueness of buffers holds for nonzero blocks only: all buffers start out with block 0.
- A process that still refers to an unlinked directory can make files, devices, directories and
  links there. Link invariants survive exactly if it does not (`Links.CreateNeedsLive`,
  `LinkNeedsLive`, `MkdirNeedsLive`; calls that do it: `UnlinkedGetsNew`, `UnlinkedGetsLink`).
  If the parent is gone too, creating `..` there panics (`Links.UnlinkedPanics`, exact outcome in
  `Links.Tree.Create`).
- A write whose source becomes unreadable inside a block's share leaves the readable part in the
  block without reporting or logging it. The file changes only in reported bytes exactly if that
  part is empty, past the end of the file or equal to what was there; all changed blocks are logged
  exactly if it is empty, equal to what was there, or in a block that is new or logged already.
  `FileSystem.FileSystem.Writei` states both on the state before the call; a call that violates
  both: `FileSystem.HalfCopiedShare`.
  Releasing the block then loses the invariants of cache and log
  (`BufferCache.BufferCache.Release`, `Log.Log.OtherRelease`).
- `nlink` is right exactly up to its 16-bit maximum (`Links.Tree.LinkBegin`, `Links.Tree.MakeDir`;
  a file with 32767 links: `Links.LinkLimit`).
- `kill` of a process that is about to sleep in `wait`, having just seen that it is not killed, leaves
  it asleep until a child exits (`ProcLife.KillLost`). A kill at any other time is heeded
  (`Proc.KillWakes`, `Proc.KilledForGood`).
- The sector of a block is right exactly below 2^31 blocks (`VirtioSpec.SectorRight`).
- A pipe writer that is killed after putting bytes in does not wake readers
  (`Pipe.KilledWriterForgets`; exact condition, on the state and arguments before the call, in
  `Pipe.Pipe.Write`).
- `malloc` passes its size to `sbrk` as an `int`: right exactly up to 2^31 - 32 bytes
  (`MallocSpec.SbrkWhole`). A larger request can shrink the heap (`MallocSpec.SbrkShrinks`, exact
  condition in `ShrinksExactly`).
- mkfs adds a block that was never allocated to the root directory exactly if its entries fill
  whole blocks (`Mkfs.RoundedHoles`, `Mkfs.Image.Make`; 62 files: `Mkfs.SixtyTwoFiles`).

## What became a parameter

The contents of the disk, the replies of `sbrk`, whether a user address can be read or
written, whether a process has been killed, the scheduler's choice, the order in which the
disk completes requests and the status it reports, and whether a directory can grow are
parameters or free choices; the theorems hold for all of them. Panics are outcomes.

## Model

| member | source | states |
|---|---|---|
| `Blocks.WordSetWord` | kernel/log.c:102-113 | a stored 32-bit word is read back as stored and every other word of the block is untouched, for every block, index and value |
| `LogSpec.HeadRoundTrip` | kernel/log.c:86-113 | a header written by `write_head` is read by `read_head` as the same block list, for every valid list |
| `LogSpec.RecoverPrefix` | kernel/log.c:116-122 | the disk after any prefix of a recovery's writes: log area as before, listed home blocks installed so far, header cleared only by the last write |
| `LogSpec.RecoveryRestarts` | kernel/log.c:66-122 | a recovery cut short after any number of writes and run again leaves the same home blocks as one that ran through |
| `LogSpec.RecoverEmptyLog` | kernel/log.c:116-122 | with an empty header recovery changes no home block |
| `LogSpec.RecoverEmptiesLog` | kernel/log.c:116-122 | a complete recovery leaves an empty header, and a second one changes no home block |
| `LogSpec.CommittedRecovers` | kernel/log.c:176-202 | once log blocks and header are on disk, recovery yields the new contents of every home block |
| `LogSpec.CommitPrefix` | kernel/log.c:176-202 | the disk after any number of a commit's writes is a disk in the middle of logging or in the middle of a recovery |
| `LogSpec.CommitThenRecover` | kernel/log.c:176-202 | a commit stopped after `k` writes and then recovered gives all old home blocks if the header write was not among them, all new ones otherwise |
| `LogSpec.CommitCompletes` | kernel/log.c:193-202 | a commit that runs through leaves the new contents at home and an empty log |
| `LogSpec.CrashedRecoveries` | kernel/log.c:66-122 | any number of recoveries, each cut short anywhere, does not change what a complete recovery gives |
| `LogSpec.CrashAtomic` | kernel/log.c:66-202 | crash atomicity: stop the commit between any two block writes, crash any number of recoveries anywhere; the next complete recovery leaves every home block old or every one new, and new exactly if the first header write reached the disk |
| `LogProtocol.RunKeepsInv` | kernel/log.c:124-234 | the invariant of group commit over every interleaving of operations, commit writes, crashes and recoveries |
| `LogProtocol.CrashSafety` | kernel/log.c:54-234 | in every run with crashes anywhere, told by its steps alone: the disk recovers to exactly the durable ones of the writes that its `log_write` steps asked for, repeated writes of a block included; no operation is split by that point; without a panic readers see all writes, and when nothing is running everything is durable |
| `LogProtocol.RunAgrees` | kernel/log.c:124-234 | the log's state always agrees with what the steps asked for: logged writes, durable point, open operations, distinct blocks pending |
| `LogProtocol.AllLogged` | kernel/log.c:213-234 | without crashes the logged writes are the `log_write` steps in order |
| `LogProtocol.CanFinish` | kernel/log.c:143-202 | from every state without a panic, ending the open operations and writing out the commit is possible, and then the home blocks on disk hold every write logged |
| `LogProtocol.NoPanic` | kernel/log.c:124-174 | if operations add at most `opBlocks` distinct blocks and MAXOPBLOCKS + 2 opBlocks is below min(LOGSIZE, size - 1), no run reaches a panic of `log_write` or `end_op` |
| `LogProtocol.PanicReachable` | kernel/log.c:213-234 | the condition is exact: where it fails there is a run into the panic of `log_write` |
| `LogProtocol.MkfsLogCapacity` | mkfs/mkfs.c:24 | on the image of mkfs, 9 blocks per operation never panic and the documented 10 can |
| `Log.LogReads` | kernel/log.c:178-190 | while `write_log` copies, each logged block is still read as it was before |
| `Log.InstallReads` | kernel/log.c:68-82 | while `install_trans` copies, each log block is still read as it was before |
| `Log.CommitStages` | kernel/log.c:176-202 | the four stages of `commit` issue together exactly the writes of the commit plan, in order |
| `Log.CommitEffect` | kernel/log.c:193-202 | after these writes disk and cache agree with the cache from before at home, and no transaction is left |
| `Log.RecoverEffect` | kernel/log.c:116-122 | installing what the header lists and clearing it issues exactly a recovery plan and leaves the recovered disk |
| `Log.Log.constructor` | kernel/log.c:54-64 | `initlog` recovers through the cache: disk and cache are the recovered disk, nothing is logged, pinned or locked |
| `Log.Log.ReadHead` | kernel/log.c:86-96 | the in-memory list is the decoded header; references of all buffers are as before |
| `Log.Log.WriteHead` | kernel/log.c:102-113 | one block write: the header encoding the list; references of all buffers are as before |
| `Log.Log.WriteLog` | kernel/log.c:178-190 | issues exactly the log plan of the list and the cached contents, with one unused buffer; references are as before |
| `Log.Log.InstallTrans` | kernel/log.c:68-82 | issues exactly the install plan; outside recovery every block of the list, and no other, is unpinned once, after its disk write |
| `Log.Log.Commit` | kernel/log.c:193-202 | issues exactly the commit plan; all cached contents are then on disk, the log is empty and nothing is pinned; one unused buffer is enough for it not to panic |
| `Log.Log.RecoverFromLog` | kernel/log.c:116-122 | issues exactly the recovery plan and leaves the recovered disk |
| `Log.Log.LogOne` | kernel/log.c:182-189 | one turn of `write_log` with two buffers locked: the cached contents of a listed block in its log block, on disk; all listed blocks stay pinned |
| `Log.Log.InstallOne` | kernel/log.c:72-81 | one turn of `install_trans` with two buffers locked: the log block at home and on disk, then unpinned; the rest of the list stays pinned |
| `Log.Log.StoreHome` | kernel/log.c:75-78 | a home block is unpinned only once the disk has it |
| `Log.Log.ReadBoth` | kernel/log.c:72-74 | two different blocks read and locked at the same time; nobody else's buffer moves |
| `Log.Log.ReleaseBoth` | kernel/log.c:79-80 | both released: references as before, locks of others untouched |
| `Log.Log.OtherGet` | kernel/buffer-io.c:51-79 | whatever block any process asks for, between operations or between two turns of a commit, the buffer of a block that waits to be installed is not recycled |
| `Log.Log.OtherLock` | kernel/buffer-io.c:82-92 | locking and filling a buffer, at any of these times, keeps the state of the log |
| `Log.Log.OtherModify` | kernel/buffer-io.c:82-101 | a process may change a home block it has locked; it then differs from the disk while locked |
| `Log.Log.OtherRelease` | kernel/buffer-io.c:104-124 | pins and contents stay at any of these times; the state of the log is kept exactly if the block is logged or unchanged |
| `Log.TwoUses` | kernel/log.c:66-82 | two buffers read, used and released leave every buffer that somebody refers to where it was, locked and pinned as it was |
| `Log.UnpinNext` | kernel/log.c:77-78 | after a turn exactly the rest of the list is pinned |
| `Log.Log.TryBegin` | kernel/log.c:126-141 | admitted exactly if no commit runs and the reservation fits LOGSIZE |
| `Log.Log.LogWrite` | kernel/log.c:214-234 | panics exactly when the list is full or no operation runs; a changed buffer is listed and pinned once, so that every block that differs from the disk is listed or still locked |
| `Log.Log.EndOp` | kernel/log.c:146-174 | the last operation out commits everything; panics only if a commit is running or it needs a buffer and none is unused |
| `BufferCache.Unlinked` | kernel/buffer-io.c:104-124 | taking a buffer out of the circular doubly linked list leaves the list of the others, both directions |
| `BufferCache.PushedFront` | kernel/buffer-io.c:31-46 | linking a buffer in behind the head gives the list with it in front, both directions |
| `BufferCache.FrontListed` | kernel/buffer-io.c:104-124 | moving a buffer to the front keeps the list a permutation of all buffers in order of last release |
| `BufferCache.RecycleKeeps` | kernel/buffer-io.c:51-79 | giving an unreferenced buffer to another block keeps one buffer per nonzero block and every unwritten change in the cache |
| `BufferCache.TouchKeeps` | kernel/buffer-io.c:82-138 | the changes that callers make to a buffer they hold keep cache and disk in agreement |
| `BufferCache.ModifyKeeps` | kernel/buffer-io.c:82-101 | storing new data in a locked buffer makes it the latest contents of its block and of no other |
| `BufferCache.BufferCache.constructor` | kernel/buffer-io.c:31-46 | a circular list of all NBUF buffers, none valid, agreeing with the disk |
| `BufferCache.BufferCache.PushFront` | kernel/buffer-io.c:31-46 | the list grows by this buffer at its front and by nothing else; contents and their safety are as before |
| `BufferCache.BufferCache.FindCached` | kernel/buffer-io.c:51-79 | a buffer with this block number if there is one, and otherwise none has it |
| `BufferCache.BufferCache.FindUnused` | kernel/buffer-io.c:51-79 | the unreferenced buffer released longest ago, or none is unreferenced |
| `BufferCache.BufferCache.Get` | kernel/buffer-io.c:51-79 | hit, or the least recently released unused buffer whose old block is safe on disk, or all buffers are in use; agreement is kept |
| `BufferCache.BufferCache.TryLock` | kernel/buffer-io.c:51-79 | takes the buffer's lock exactly if it is free |
| `BufferCache.BufferCache.Fill` | kernel/buffer-io.c:82-92 | `bufcache_read` returns the latest contents of a nonzero block, read from disk only if the buffer was not valid |
| `BufferCache.BufferCache.Modify` | kernel/buffer-io.c:82-101 | the holder's new data are the block's latest contents |
| `BufferCache.BufferCache.Write` | kernel/buffer-io.c:95-101 | the block on disk is then the latest; panics exactly for a process that does not hold the lock |
| `BufferCache.BufferCache.Unlock` | kernel/buffer-io.c:104-124 | only the holder unlocks; no unwritten block can be recycled afterwards exactly if this one is written or pinned |
| `BufferCache.BufferCache.Drop` | kernel/buffer-io.c:104-124 | a buffer nobody refers to any more moves to the front of the list, in all other cases the order stays; safe after exactly if safe before |
| `BufferCache.BufferCache.MoveToFront` | kernel/buffer-io.c:104-124 | the list is a permutation with this buffer first and the others in their order |
| `BufferCache.BufferCache.Unlink` | kernel/buffer-io.c:104-124 | the list without this buffer |
| `BufferCache.BufferCache.Pin` | kernel/buffer-io.c:126-131 | one more reference that only the log gives back |
| `BufferCache.BufferCache.Unpin` | kernel/buffer-io.c:133-138 | gives a pin back once the block is on disk |
| `BufferCache.BufferCache.Read` | kernel/buffer-io.c:82-92 | the block's buffer, locked, with the latest contents; panics exactly if the block has none and all are referred to |
| `BufferCache.BufferCache.Release` | kernel/buffer-io.c:104-124 | unlocked, one reference less, only links change besides; panics exactly without the lock; the invariant survives exactly if the holder has written or pinned what it changed |
| `FsSpec.BitSetBit` | kernel/fs.c:64-103 | setting or clearing a block's bit in the bitmap changes that bit and no other, across bytes and bitmap blocks |
| `FsSpec.BitPlace` | kernel/fs.h:47-51 | the bitmap is one array of bits in block order, between inodes and data |
| `FsSpec.InodePlace` | kernel/fs.h:41-45 | inodes on disk are one array of 64-byte records before the bitmap; two share a block exactly if their numbers agree up to the last 16 |
| `FsSpec.SlotsKeep` | kernel/fs.c:379-417 | changing blocks that no inode owns changes no block number of any inode |
| `FsSpec.Attached` | kernel/fs.c:379-417 | a freshly allocated block stored in an empty slot keeps bits and owners in bijection |
| `FsSpec.TruncateKeeps` | kernel/fs.c:422-449 | dropping all block numbers of an inode with exactly its bits keeps bits and owners in bijection |
| `FsFiles.Grows` | kernel/fs.c:379-417 | filling empty slots with zeroed blocks changes no byte of any file |
| `FsFiles.AttachDirect` | kernel/fs.c:379-417 | a new block in a direct slot: ownership kept, no file's bytes changed |
| `FsFiles.AttachIndirect` | kernel/fs.c:379-417 | a new block in an indirect slot: ownership kept, no file's bytes changed |
| `FsFiles.PutBytesByte` | kernel/fs.c:502-535 | storing a chunk in one block changes exactly these bytes of this file and none of any other |
| `FsFiles.WrittenTransitive` | kernel/fs.c:502-535 | chunks written one after the other are one write of their concatenation |
| `FsOps.BallocWorks` | kernel/fs.c:64-86 | the first clear bit is a data block; marking and zeroing it leaves exactly one loose block |
| `FsOps.BmapIndirect` | kernel/fs.c:379-417 | through the indirect block `bmap` finds or allocates the block of a file, with what it logs |
| `FsOps.ChunkOfFile` | kernel/fs.c:468-492 | the bytes of one block are a slice of the flat contents |
| `FsOps.FilewriteChunkFits` | kernel/file.c:142-167 | every chunk of `filewrite`, aligned or not, costs at most MAXOPBLOCKS distinct blocks by the bound of `writei` |
| `FsOps.LedgerBound` | kernel/fs.c:502-535 | data, bitmap, indirect and inode blocks logged by a write, counted without repetition |
| `FsOps.WrittenHasNoHoles` | kernel/fs.c:502-535 | after a write of any length every block below every file's size is allocated |
| `FsOps.WrittenContent` | kernel/fs.c:502-535 | the contents after a write are the old ones with the bytes spliced in; other files are unchanged |
| `FsOps.WriteEnds` | kernel/fs.c:502-535 | ending a write, short or whole, with the new size re-establishes everything |
| `FsOps.FreeingStep` | kernel/fs.c:422-449 | freeing one owned block finds its bit set, clears that bit only and logs its bitmap block |
| `FsOps.FreeingDone` | kernel/fs.c:422-449 | when all slots are done, exactly the inode's blocks are free and every other file has its contents |
| `Mkfs.Image.Make` | mkfs/mkfs.c:70-172 | the program completes exactly if no file is too long, the blocks that the files need fit the disk and one bitmap block is enough for them; files that do not fit make it die at the first block past the end, with the bitmap unwritten. If it completes, bitmap, block numbers and owners agree, every file holds its bytes, and no file has a missing block exactly if the root directory's entries do not fill whole blocks |
| `Mkfs.NotYet` | mkfs/mkfs.c:134-160 | once some of the files do not fit, no more files make them fit |
| `Mkfs.Image.constructor` | mkfs/mkfs.c:107-110 | an image of zeroes, nothing taken |
| `Mkfs.Image.MakeRoot` | mkfs/mkfs.c:116-127 | the root directory is inode 1 and has `.` and `..`, unless the disk ends first |
| `Mkfs.Image.AddFile` | mkfs/mkfs.c:149-159 | one file more: its bytes, its entry, exactly the blocks it needs, all earlier files as before; completes exactly if all of them fit |
| `Mkfs.Image.AppendChunks` | mkfs/mkfs.c:156-157 | a file is the concatenation of what `read` returned, however it was cut; completes exactly if there is room |
| `Mkfs.Image.Ialloc` | mkfs/mkfs.c:220-231 | the next inode, empty |
| `Mkfs.Image.Iappend` | mkfs/mkfs.c:252-293 | the bytes are at the end of this file, all others are as before, and as many blocks are taken as the file needs more; completes exactly if the disk has them and the file is not too long |
| `Mkfs.Image.AppendAll` | mkfs/mkfs.c:264-290 | the loop writes exactly the bytes, from the old end of the file |
| `Mkfs.Image.AppendTurn` | mkfs/mkfs.c:264-290 | one turn writes its share and leaves every file with exactly the blocks it needs, or dies exactly if the disk has too few |
| `Mkfs.Image.Fetch` | mkfs/mkfs.c:265-284 | the block, and the indirect block if needed, are added exactly if missing; no file changes; `rsect` dies exactly if a number handed out is past the end of the disk |
| `Mkfs.Image.FetchDirect` | mkfs/mkfs.c:267-271 | the same for a direct block |
| `Mkfs.Image.FetchEntry` | mkfs/mkfs.c:276-281 | the same for an entry of the indirect block |
| `Mkfs.TakeDirect` | mkfs/mkfs.c:267-275 | a block handed out in order and put in an empty inode slot keeps ownership one to one |
| `Mkfs.TakeEntry` | mkfs/mkfs.c:276-280 | and so in an empty indirect slot |
| `Mkfs.TurnNeeds` | mkfs/mkfs.c:265-282 | what a turn takes is by how much the number of blocks for the file's size grows |
| `Mkfs.AppendEnds` | mkfs/mkfs.c:291-292 | with the new size the file is the old one and the bytes, without a missing or a superfluous block, and zero past its end |
| `Mkfs.UsedBits` | mkfs/mkfs.c:241-244 | exactly the first `used` bits of the block are set |
| `Mkfs.BitmapMatches` | mkfs/mkfs.c:234-247 | the bitmap marks exactly the blocks handed out |
| `Mkfs.Image.Balloc` | mkfs/mkfs.c:234-247 | stops exactly if one block of bits is not enough, else completes the invariant of the kernel |
| `Mkfs.RoundedHoles` | mkfs/mkfs.c:162-167 | rounding the root directory's size adds a block that is not there exactly if its entries filled whole blocks |
| `Mkfs.RoundedFinished` | mkfs/mkfs.c:162-167 | otherwise rounding adds free entries, and it changes no file |
| `Mkfs.RootEntry` | mkfs/mkfs.c:149-154 | entry k + 2 of the root directory has the number and the cut name of file k |
| `Mkfs.EightLargeFiles` | mkfs/mkfs.c:70-172 | eight files of the largest size: the program dies reading block 2000 of a disk of 2000 blocks, the bitmap unwritten |
| `Mkfs.SixtyTwoFiles` | mkfs/mkfs.c:162-167 | 62 files: the program completes, the root directory's size is two blocks and the second one is missing |
| `MkfsLinks.DirentDecodes` | mkfs/mkfs.c:149-154 | an entry's bytes are read back as its number and the name cut to DIRSIZ |
| `MkfsLinks.RootDecodes` | mkfs/mkfs.c:116-160 | the bytes of the root directory are the entries that the link invariants speak about |
| `MkfsLinks.ImageDecodes` | mkfs/mkfs.c:70-172 | the finished image: its root directory's bytes satisfy the link invariants exactly if the names are distinct once cut and proper |
| `FileSystem.FileSystem.constructor` | mkfs/mkfs.c:234-247 | a formatted disk without files satisfies the invariants |
| `FileSystem.FileSystem.FindFree` | kernel/fs.c:64-86 | the lowest block whose bit is clear, or all are set |
| `FileSystem.FileSystem.Balloc` | kernel/fs.c:64-86 | the lowest free block, zeroed, with its bit set, or 0 on a full disk with nothing changed |
| `FileSystem.FileSystem.LoadSlot` | kernel/fs.c:379-417 | a direct slot keeps its block, gets a new one, or the disk is full; no other slot changes and at most one block is taken |
| `FileSystem.FileSystem.LoadEntry` | kernel/fs.c:379-417 | the same for an entry of the indirect block, which is then logged |
| `FileSystem.FileSystem.Bmap` | kernel/fs.c:379-417 | the block of a file position; never changes a file's bytes or another slot; 0 exactly if there are fewer free blocks than it lacks, else exactly these are taken |
| `FileSystem.FileSystem.ReadTurn` | kernel/fs.c:468-492 | one block's share of a read is a slice of the contents, and nothing is allocated |
| `FileSystem.FileSystem.Readi` | kernel/fs.c:468-492 | returns the slice of the flat contents clipped to the size, 0 beyond it or on 32-bit overflow, -1 if the destination fails; never allocates |
| `FileSystem.FileSystem.ReadAll` | kernel/fs.c:468-492 | the loop of `readi` collects the slice block by block |
| `FileSystem.FileSystem.WriteTurn` | kernel/fs.c:502-535 | one block's share of a write, or the part of it that can be read, which is neither logged nor counted; fails exactly on a full disk or a bad source |
| `FileSystem.FileSystem.WriteAll` | kernel/fs.c:502-535 | the loop of `writei`: exactly how far it gets, and what a half-read share leaves behind |
| `FileSystem.FileSystem.WriteChecked` | kernel/fs.c:502-535 | the rest of `writei` after its range checks, with the same outcome |
| `FileSystem.FileSystem.Writei` | kernel/fs.c:502-535 | -1 exactly out of range; otherwise r is exactly the readable whole shares for which there are blocks; the contents are spliced with these bytes and with the readable part of the next share; only reported bytes change exactly if those others are past the end or equal what was there, and every changed block is logged exactly if they are not in an unlogged block of the file that differs; no holes appear, other files keep their contents, and the blocks logged are bounded |
| `FileSystem.FileSystem.Bfree` | kernel/fs.c:90-103 | panics exactly on a free block; otherwise clears this bit only |
| `FileSystem.FileSystem.Itrunc` | kernel/fs.c:422-449 | frees exactly the blocks the inode owned, without the panic of `bfree`, empties the inode and leaves every other file's contents; every changed block is logged, and exactly the bitmap blocks of freed blocks and the inode's block are |
| `FileSystem.FileSystem.FreeDirect` | kernel/fs.c:422-449 | the loop over direct blocks frees each of them once |
| `FileSystem.FileSystem.FreeIndirect` | kernel/fs.c:422-449 | the loop over the indirect block frees each entry and the block itself once |
| `FileSystem.FileSystem.WriteChunk` | kernel/file.c:142-167 | one transaction of `filewrite` logs at most MAXOPBLOCKS blocks; how far it gets |
| `FileSystem.FileSystem.Filewrite` | kernel/file.c:128-174 | chunk by chunk the file is spliced with a prefix of the source, and with bytes of a half-read share if the source cannot be read to the end; the whole length or -1; no chunk exceeds MAXOPBLOCKS blocks |
| `FileSystem.HalfCopiedShare` | kernel/fs.c:502-535 | a file of 1024 bytes and a write over it whose source ends after 100: 0 is reported, the file starts with the 100 bytes, and its block is not logged |
| `FsOps.BmapDirectTakes` | kernel/fs.c:384-392 | a direct block is taken exactly if missing, and there is none exactly on a full disk |
| `FsOps.BmapIndirectTakes` | kernel/fs.c:393-414 | through the indirect block one or two blocks are taken, exactly those missing; all changes are logged |
| `FsOps.ShownIs` | kernel/fs.c:502-535 | what a file shows of bytes put in but not counted: those below its old size |
| `FsWrites.PacedTurn` | kernel/fs.c:502-535 | after every turn a write has taken exactly the blocks that the file lacked, has logged every change, and has not touched the file's later blocks |
| `FsWrites.PacedCount` | kernel/fs.c:502-535 | a turn finds its block exactly if the disk had enough free ones for all turns so far |
| `FsWrites.Completed` | kernel/fs.c:502-535 | a write that gets to its end has logged every block it changed |
| `FsWrites.Stopped` | kernel/fs.c:502-535 | one that stops reports exactly the readable whole shares for which there were blocks, and every changed block is logged exactly if no unread share slips through |
| `FsWrites.StrayTurn` | kernel/fs.c:515-522 | the readable part of a share goes into the block unlogged, exactly if the file had the block, nobody has logged it and the bytes differ |
| `FsWrites.OnlyReported` | kernel/fs.c:502-535 | the file changes only in the reported bytes exactly if the others equal what was there or lie past its end |
| `FsWrites.StraysLast` | kernel/fs.c:502-535 | bytes that are not reported come after all that are, and end where the source does |
| `FsWrites.ChunkShown` | kernel/file.c:142-167 | a chunk after others that were written whole: the file has all of them and what the last share left |
| `LinkSpec.AttachKeeps` | kernel/fs.c:576-602 | a new entry for a file whose count was raised before keeps counts, unique names, targets and tree shape |
| `LinkSpec.DetachKeeps` | kernel/sysfile.c:190-244 | clearing a file's entry keeps them, one link pending |
| `LinkSpec.OnlyFileKeeps` | kernel/sysfile.c:125-171 | changing a file's count with its pending links keeps them |
| `LinkSpec.WithDirKeeps` | kernel/sysfile.c:247-303 | a new directory with `.` and `..`, entered in its parent whose count goes up, keeps them |
| `LinkSpec.SoleLink` | kernel/sysfile.c:190-244 | an empty directory that is found under a name has exactly one link, and its parent has at least two |
| `LinkSpec.WithoutDirKeeps` | kernel/sysfile.c:190-244 | removing an empty directory and its `..` from the parent's count keeps them |
| `LinkSpec.FreeKeeps` | kernel/fs.c:333-358 | freeing an inode whose count is 0 leaves no live entry naming it |
| `LinkSpec.RootedKept` | kernel/sysfile.c:125-303 | if live directories keep their parents and new ones go into live ones, `..` still leads from every live directory to the root |
| `LinkSpec.NoLoop` | kernel/sysfile.c:125-303 | following `..` from a live directory never comes back to it, unless it is the root |
| `Links.Tree.Dirlookup` | kernel/fs.c:548-571 | finds the entry with the name cut to DIRSIZ, or there is none |
| `Links.Tree.FindEmpty` | kernel/fs.c:576-602 | the first empty slot, or the end |
| `Links.Tree.Dirlink` | kernel/fs.c:576-602 | fails exactly if the name is taken or the directory cannot grow; else one slot changes |
| `Links.Tree.Ialloc` | kernel/fs.c:195-215 | the first free inode, or none is free |
| `Links.Tree.LinkBegin` | kernel/sysfile.c:125-171 | refused exactly for directories; the count goes up, and stays right exactly if it was below the 16-bit maximum |
| `Links.Tree.LinkEnd` | kernel/sysfile.c:125-171 | fails exactly if the name is taken or the directory cannot grow; the entry is made, or the count goes back down; the invariants hold afterwards exactly if no entry went into an unlinked directory |
| `Links.Tree.DropLink` | kernel/sysfile.c:125-171 | one link less, freed exactly if it was the last link and the last reference |
| `Links.Tree.IsDirEmpty` | kernel/sysfile.c:175-187 | true exactly if there is nothing after `.` and `..` |
| `Links.Tree.Create` | kernel/sysfile.c:247-303 | exact outcome for new and taken names, the panic of `ilock` included: a taken name gives the file or device there exactly to a call for a file, and nothing changes; the invariants hold afterwards exactly unless something was made in an unlinked directory or a subdirectory in one with 32767 links |
| `Links.CreateAgain` | kernel/sysfile.c:247-303 | after a successful `create` a second one of the name returns the same inode if it asks for a file and finds a file or device, and fails otherwise; the state is unchanged |
| `Links.Tree.MakeFile` | kernel/sysfile.c:247-303 | a new file with one link and one entry in the first empty slot, or only a cleared free inode; right exactly if the directory is live |
| `Links.Tree.MakeDir` | kernel/sysfile.c:247-303 | a new directory with its two entries and one more link to the parent, or only a cleared free inode; right exactly if the parent is live and its count below the maximum |
| `Links.Tree.DotEntries` | kernel/sysfile.c:247-303 | exactly `.` and `..`, in this order |
| `Links.Tree.Unlink` | kernel/sysfile.c:190-244 | fails exactly for `.`, `..`, unknown names and occupied directories; never meets a count below 1; counts stay right |
| `Links.Tree.RemoveFile` | kernel/sysfile.c:190-244 | entry cleared, count down, inode freed if that was the last |
| `Links.Tree.RemoveDir` | kernel/sysfile.c:190-244 | entry cleared, both counts down, inode freed if unreferenced |
| `Links.Tree.Iput` | kernel/fs.c:333-358 | frees exactly an inode without links |
| `Links.CreateNeedsLive` | kernel/sysfile.c:247-303 | the invariants survive a new file or device exactly if its directory has not been unlinked |
| `Links.LinkNeedsLive` | kernel/sysfile.c:125-171 | they survive another link exactly if its directory has not been unlinked |
| `Links.MkdirNeedsLive` | kernel/sysfile.c:247-303 | they survive a new directory exactly if its parent has not been unlinked and has fewer than 32767 links |
| `Links.OnlyUnlinkedDangle` | kernel/sysfile.c:247-303 | only `..` of an unlinked directory can name an inode that is not in use |
| `Links.UnlinkedDirectory` | kernel/sysfile.c:190-244 | calls that lead to an unlinked directory that somebody still refers to |
| `Links.UnlinkedGetsNew` | kernel/sysfile.c:247-303 | a file, device or directory made in it breaks the invariants |
| `Links.UnlinkedGetsLink` | kernel/sysfile.c:125-171 | a link made in it breaks the invariants |
| `Links.UnlinkedPair` | kernel/sysfile.c:190-244 | calls that unlink a directory and its parent while somebody still refers to the former |
| `Links.UnlinkedPanics` | kernel/sysfile.c:247-303 | there `create` of `..` meets a freed inode: the panic of `ilock` |
| `Links.LinkLimit` | kernel/sysfile.c:125-171 | a file with 32767 links in two directories that fit the file system: one more makes the count negative |
| `Links.ManyLinksInv` | kernel/sysfile.c:125-171 | every number of links up to 32767 is a right state |
| `Links.Tree.constructor` | mkfs/mkfs.c:116-160 | the image of mkfs |
| `Links.MkfsImage` | mkfs/mkfs.c:116-160 | the image satisfies all link invariants exactly if the given names are distinct once cut to DIRSIZ and none is `.` or `..` |
| `VmSpec.PteFields` | kernel/vm.c:110-134 | page number, flags, valid, user and leaf bits of a built entry read back as they were put in |
| `VmSpec.PxDistinct` | kernel/vm.c:63-83 | the three 9-bit indices determine the virtual page |
| `VmSpec.WalkFinds` | kernel/vm.c:63-83 | following entries from the root reaches the level-0 table of the page, or nothing, on every well-formed forest of trees |
| `VmSpec.SetLeaf` | kernel/vm.c:110-159 | storing a level-0 entry changes the map at one page of one tree and keeps all trees well formed |
| `VmSpec.AddTableKeeps` | kernel/vm.c:63-83 | hanging in an empty table changes no mapping of any tree |
| `VmSpec.AddRootKeeps` | kernel/proc.c:162-183 | a new root is an empty map; the other trees are as before |
| `VmSpec.PruneKeeps` | kernel/vm.c:221-238 | taking away a whole tree leaves the maps of all others |
| `VmMem.MapOne` | kernel/vm.c:110-134 | one more page of `mappages` is an insertion into the map |
| `VmMem.FreeOne` | kernel/vm.c:137-159 | one more page of `uvm_unmap` is a deletion from the map, and its frame goes back to the free list |
| `VmMem.GrowOne` | kernel/vm.c:176-200 | one more page of `uvm_alloc`: a frame from the free list, mapped nowhere else |
| `VmMem.ZeroBytes` | kernel/vm.c:186-191 | a new page reads as zero everywhere |
| `VmMem.GrewThenFreed` | kernel/vm.c:176-200 | growth followed by its undoing restores all maps, frames and owners |
| `VmMem.TakenDown` | kernel/vm.c:221-247 | freeing the tables of an unmapped tree conserves all pages and leaves other spaces alone |
| `VmCopy.UserPageFrame` | kernel/vm.c:88-100 | a page the user may touch is backed by a frame that no other page of any space has |
| `VmCopy.StoreChunk` | kernel/vm.c:295-315 | storing in one frame changes the user bytes of that page range in one space and no byte of any other |
| `VmCopy.TopKept` | kernel/vm.c:176-281 | operations on user pages leave the two pages above them closed to the user |
| `Vm.Vm.constructor` | kernel/kalloc.c:23-34 | all pages free and no space |
| `Vm.Vm.Kalloc` | kernel/kalloc.c:51-64 | the head of the free list, or null on an empty one |
| `Vm.Vm.Walk` | kernel/vm.c:63-83 | the level-0 table of a page; without `alloc` nothing changes, with it exactly the missing tables are added, and it fails exactly if there are more of them than free pages |
| `Vm.Vm.Mappages` | kernel/vm.c:110-134 | refines insertion into the page map of one space; every outcome, with how many pages were mapped before it stopped |
| `Vm.Vm.MapAll` | kernel/vm.c:110-134 | the loop: Done with exactly the missing tables taken, out of memory exactly if the next page lacks more than is free, or panic at a page above MAXVA or already mapped |
| `VmCount.Needed` | kernel/vm.c:63-134 | what the next page takes is by how much the number of missing tables grows |
| `VmCount.TookMore` | kernel/vm.c:63-134 | page by page exactly the missing tables are taken |
| `VmCount.StepFails` | kernel/vm.c:63-83 | a walk that finds no free page for a table lacks more tables than there were pages |
| `VmCount.FreshLacks` | kernel/proc.c:162-183 | a new space lacks both tables on the way to any page |
| `Vm.Vm.UnmapFree` | kernel/vm.c:137-159 | refines deletion, returns each frame once, panics exactly at the first page that is not mapped |
| `Vm.Vm.UnmapKeep` | kernel/vm.c:137-159 | refines deletion and touches no frame |
| `Vm.Vm.UvmDealloc` | kernel/vm.c:205-218 | frees exactly the pages between the rounded sizes |
| `Vm.RoundUpIs` | kernel/vm.c:176-218 | sizes are rounded up to the least number of 4096-byte pages |
| `Vm.Vm.UvmAlloc` | kernel/vm.c:176-200 | maps fresh zeroed frames up to the new size or restores all maps, frames and owners; fails exactly if there are fewer free pages than new pages and missing tables; a size that reaches the trapframe panics there unless memory runs out before |
| `Vm.Vm.GrowPage` | kernel/vm.c:176-200 | one frame with its contents mapped at one page, or everything as before, exactly if there is no page for it and its missing tables; a panic exactly at the trapframe's page |
| `Vm.Vm.UndoGrowth` | kernel/vm.c:176-200 | the failure path restores what was there |
| `Vm.Vm.UvmCopy` | kernel/vm.c:250-281 | the child gets a copy of every page with the same permissions in frames of its own, or all maps and frames are as before, exactly if there are fewer free pages than pages and missing tables |
| `Vm.Vm.Freewalk` | kernel/vm.c:221-238 | frees a table and all tables below it, each exactly once, without the leaf panic on an unmapped tree |
| `Vm.Vm.UvmFree` | kernel/vm.c:241-247 | frames and tables of the space are free again, nothing of another space changes, no panic |
| `Vm.Vm.ProcPagetable` | kernel/proc.c:162-183 | a space with exactly trampoline and trapframe, or null and everything as before, exactly if fewer than three pages are free |
| `Vm.Vm.DropSpace` | kernel/proc.c:162-183 | the failure path gives every page of the new space back |
| `Vm.Vm.ProcFreepagetable` | kernel/proc.c:185-190 | a space mapped on [0, sz), trampoline and trapframe is taken down without panic, every owned page returned once |
| `Vm.Vm.Walkaddr` | kernel/vm.c:88-100 | a frame exactly for valid user pages below MAXVA |
| `Vm.Vm.CopyFromUser` | kernel/vm.c:318-338 | byte by byte the user's memory, up to the first byte it cannot touch; success exactly if there is none |
| `Vm.Vm.CopyToUser` | kernel/vm.c:295-315 | byte by byte store of a prefix that ends at the first byte the user cannot touch; no other byte of any space changes |
| `Vm.Vm.CopyinStr` | kernel/vm.c:341-376 | the string up to its first 0; fails exactly if there is none within `max` accessible bytes |
| `MallocSpec.JoinTile` | user/umalloc.c:24-43 | merging two touching blocks keeps the exact tiling of all memory by blocks |
| `MallocSpec.CutTile` | user/umalloc.c:63-89 | splitting a block keeps it |
| `MallocSpec.NewTile` | user/umalloc.c:46-60 | memory from `sbrk` extends it |
| `MallocSpec.FreeInserted` | user/umalloc.c:24-43 | putting a live block into its place keeps the circular list in address order; only its neighbours may touch it |
| `MallocSpec.CoalesceKeeps` | user/umalloc.c:24-43 | merging a touching neighbour removes this adjacency and no 32-bit size overflows |
| `MallocSpec.FreeStores` | user/umalloc.c:24-43 | the stores of `free` equal an insertion followed by the two merges |
| `MallocSpec.FreeKeeps` | user/umalloc.c:24-43 | after `free` the list is circular, address-ordered, starts at `base` and has no two touching blocks |
| `MallocSpec.FreeUntouched` | user/umalloc.c:24-43 | `free` writes no word of a block that stays live |
| `MallocSpec.FreedFits` | user/umalloc.c:46-60 | the freed units end up in a free block at least as large |
| `MallocSpec.TakeKeeps` | user/umalloc.c:63-89 | handing out a whole block keeps list and tiling |
| `MallocSpec.SplitKeeps` | user/umalloc.c:63-89 | handing out the tail of a block keeps list and tiling |
| `MallocSpec.GrantKeeps` | user/umalloc.c:46-60 | new memory above the break as a block keeps them |
| `MallocSpec.LiveDisjoint` | user/umalloc.c:63-89 | live blocks are disjoint |
| `MallocSpec.TileCount` | user/umalloc.c:24-89 | the sizes of all blocks add up to the units obtained |
| `MallocSpec.Conservation` | user/umalloc.c:24-89 | live units plus free units are the units obtained from `sbrk` |
| `MallocSpec.UnitsFor` | user/umalloc.c:63-89 | the least number of units whose payload holds the bytes asked for |
| `MallocSpec.SbrkWhole` | user/umalloc.c:46-60 | the `int` passed to `sbrk` is the size asked for exactly if the request is at most 2^31 - 32 bytes |
| `MallocSpec.ShrinksExactly` | kernel/proc.c:227-244 | a request whose `int` is negative makes the heap shrink exactly if the process has that many bytes |
| `MallocSpec.SbrkShrinks` | user/umalloc.c:46-60 | a request of 2^32 - 4112 bytes passes -4096 and takes a page away from the process |
| `Malloc.Malloc.constructor` | user/umalloc.c:20-21 | no block, no memory obtained |
| `Malloc.Malloc.FindPlace` | user/umalloc.c:29-31 | the search loop ends, at the last list block below the one freed |
| `Malloc.Malloc.Free` | user/umalloc.c:24-43 | this block is not live any more; every other live block keeps address, size and words; no memory is lost |
| `Malloc.Malloc.Scan` | user/umalloc.c:73-88 | once round the list: a fitting block with its predecessor, or no block fits |
| `Malloc.Malloc.Morecore` | user/umalloc.c:46-60 | on a grant exactly these units are added and a fitting block exists; on refusal nothing changes |
| `Malloc.Malloc.Take` | user/umalloc.c:74-84 | a live block of exactly the units asked for, cut from free memory |
| `Malloc.Malloc.Allocate` | user/umalloc.c:63-89 | a new live block large enough, disjoint from all others, which keep their words; 0 exactly if nothing fits and `sbrk` refuses |
| `Regex.HereOne` | user/grep.c:83-94 | a character item takes one matching character |
| `Regex.HereEnd` | user/grep.c:83-94 | a final `$` matches exactly the end of the text |
| `Regex.StarStops` | user/grep.c:97-104 | a star cannot reach past the first character that does not fit |
| `Regex.MatchHere` | user/grep.c:83-94 | true exactly if a prefix of the text is in the declaratively defined language of the pattern |
| `Regex.MatchStar` | user/grep.c:97-104 | the same for a starred item followed by the rest |
| `Regex.Match` | user/grep.c:71-80 | true exactly if some substring is in the language, respecting `^` and `$`; all recursion and loops end |
| `Regex.PrintItems` | user/grep.c:83-94 | every pattern is what its items write, `*` after a character for a star and a final `$` for the end |
| `Regex.ItemsPrint` | user/grep.c:83-94 | every proper list of items comes back from what it writes |
| `Regex.PlainMatches` | user/grep.c:71-94 | text without special characters matches where it occurs: anywhere, at the start after `^`, at the end before `$`, as a whole with both |
| `Regex.StarMatches` | user/grep.c:83-104 | a starred character matches any number of them, a starred `.` anything, `.` any one character |
| `VirtioSpec.DescriptorsAddUp` | kernel/virtio_disk.c:153-209 | free descriptors plus three per unreclaimed request are NUM, with disjoint chains |
| `VirtioSpec.FewQueued` | kernel/virtio_disk.c:212-323 | neither ring ever holds more than NUM/3 unconsumed entries |
| `VirtioSpec.SubmitKeeps` | kernel/virtio_disk.c:212-288 | publishing a request overwrites no unconsumed entry of the available ring and no descriptor in use |
| `VirtioSpec.NextPublished` | kernel/virtio_disk.c:212-288 | the 16-bit indices differ exactly if something is published, across wrap-around, and the ring has the right head |
| `VirtioSpec.TakeKeeps` | kernel/virtio_disk.c:212-288 | the device taking the next head keeps the invariant |
| `VirtioSpec.DeviceSees` | kernel/virtio_disk.c:232-268 | the chain of every unreclaimed request reads to the device as the request was made: header, BSIZE bytes of the buffer open in the right direction, status byte |
| `VirtioSpec.CompleteKeeps` | kernel/virtio_disk.c:212-323 | a completion moves exactly the BSIZE bytes of the request, in its direction, or nothing on an error, and overwrites no unconsumed used entry |
| `VirtioSpec.CanComplete` | kernel/virtio_disk.c:212-323 | a completion without error is possible exactly if the disk has the bytes |
| `VirtioSpec.SectorRight` | kernel/virtio_disk.c:214 | the sector number is where the block is on disk exactly below 2^31 blocks |
| `VirtioSpec.SectorsOfBlock` | kernel/virtio_disk.c:214 | a block is two sectors, and different blocks have different ones |
| `VirtioSpec.BlockMoved` | kernel/virtio_disk.c:212-288 | a completed request for a block leaves buffer and block equal and changes no other block and no other buffer |
| `VirtioSpec.NextCompleted` | kernel/virtio_disk.c:291-323 | the handler's 16-bit test and ring slot give the next completion, across wrap-around |
| `VirtioSpec.SeeKeeps` | kernel/virtio_disk.c:291-323 | consuming a completion keeps the invariant |
| `VirtioSpec.ReclaimKeeps` | kernel/virtio_disk.c:282-287 | giving three descriptors back keeps the invariant |
| `Virtio.Disk.constructor` | kernel/virtio_disk.c:61-149 | all descriptors free and both rings empty |
| `Virtio.Disk.AllocDesc` | kernel/virtio_disk.c:153-162 | the first free descriptor, or none is free |
| `Virtio.Disk.FreeDesc` | kernel/virtio_disk.c:166-178 | panics exactly out of range or on a free descriptor |
| `Virtio.Disk.Alloc3` | kernel/virtio_disk.c:198-209 | three distinct free descriptors, or none taken, exactly if fewer than three are free |
| `Virtio.Disk.PutBack` | kernel/virtio_disk.c:198-209 | the failure path frees what it took without panic and changes nothing in use |
| `Virtio.Disk.Submit` | kernel/virtio_disk.c:212-277 | the request is formatted in three formerly free descriptors and published, or the caller must wait, exactly if fewer than three are free; its sector is at byte 1024 * blockno exactly below 2^31 blocks |
| `Virtio.Disk.FreeChain` | kernel/virtio_disk.c:182-193 | follows the chain and frees its three descriptors without panic |
| `Virtio.Disk.Finish` | kernel/virtio_disk.c:279-288 | returns exactly after its own request has been seen completed without error; the data have then been moved |
| `Virtio.Disk.Intr` | kernel/virtio_disk.c:291-323 | consumes every completion once and in order; panics exactly at one with an error status |
| `Virtio.ReturnsWhenSeen` | kernel/virtio_disk.c:279-288 | a buffer stops being busy exactly when its own request has been seen |
| `Virtio.NextKeeps` | kernel/virtio_disk.c:151-323 | every step of callers, device and handler keeps the invariant |
| `Virtio.EveryRun` | kernel/virtio_disk.c:151-323 | at the end of every interleaving the descriptors add up, no ring was overrun and the records of publications and completions only grew |
| `Proc.NextKeeps` | kernel/proc.c:94-542 | every step of every process, scheduler and interrupt handler keeps the invariant, preemption by a timer interrupt wherever no lock is held included |
| `Proc.EveryRun` | kernel/proc.c:94-542 | the invariant holds at the end of every interleaving from boot |
| `Proc.OneCpuEach` | kernel/proc.c:400-464 | no process is on two CPUs |
| `Proc.LoadsSavedContext` | kernel/proc.c:430-439 | a scheduler only switches to a context saved after its last use, or a new one, never a zombie's |
| `Proc.NoLostWakeup` | kernel/proc.c:493-523 | when `wakeup(c)` of a holder of `l` is through, nobody who went to sleep on `c` with `l` is asleep or falling asleep |
| `Proc.SchedChecks` | kernel/proc.c:444-464 | the checks of `sched` never fail: the own lock is held and no other, and the state is not running |
| `Proc.ParentAlive` | kernel/proc.c:249-344 | every parent is neither unused nor a zombie; every process that may run or is a zombie, but init, has one; one without is being made by a fork, interrupted or not |
| `Proc.ReapedOnce` | kernel/proc.c:347-390 | a zombie is reaped by its parent, off every CPU, and no process has its pid then |
| `Proc.NeverAgain` | kernel/proc.c:94-390 | in every run a pid that `wait` returned never belongs to a process again and is not returned again |
| `Proc.NoLostInterrupt` | kernel/proc.c:513-523 | the same as NoLostWakeup for the `wakeup` of an interrupt handler, on an idle CPU or over any process |
| `Proc.NoZombieForgotten` | kernel/proc.c:309-390 | while `wait_lock` is free nobody sleeps in `wait` that has a zombie child |
| `Proc.NeutralKeeps` | kernel/proc.c:400-523 | a change that others cannot notice, but for a sleeper woken, keeps the invariant |
| `Proc.OneKeeps` | kernel/proc.c:493-523 | a change of one process checked against every other keeps the invariant |
| `Proc.PickKeeps` | kernel/proc.c:430-439 | the scheduler's choice, left arbitrary, with its re-check under the lock |
| `Proc.UnlockKeeps` | kernel/proc.c:467-510 | the return from the switch releases the process' own lock |
| `Proc.RelockKeeps` | kernel/proc.c:493-510 | the end of `sleep` takes the caller's lock again |
| `Proc.YieldLockKeeps` | kernel/proc.c:467-475 | `yield`, called or forced by the timer where no lock is held: also inside `fork` and at the end of `sleep` |
| `Proc.YieldMarkKeeps` | kernel/proc.c:467-475 | `yield` marks the process runnable before its context is saved |
| `Proc.SleepLockKeeps` | kernel/proc.c:493-510 | `sleep` takes the own lock while it holds the caller's |
| `Proc.SleepDropKeeps` | kernel/proc.c:493-510 | `sleep` gives the caller's lock up |
| `Proc.SleepMarkKeeps` | kernel/proc.c:493-510 | `sleep` records channel and state |
| `Proc.SwitchKeeps` | kernel/proc.c:444-464 | the switch away saves the context |
| `Proc.UnloadKeeps` | kernel/proc.c:430-439 | the scheduler releases the lock of the process it came back from |
| `Proc.KillKeeps` | kernel/proc.c:526-542 | `kill` of a process keeps it |
| `Proc.KillWakes` | kernel/proc.c:526-542 | the process is then killed and not asleep, everything else is as before; it can still fall asleep in `wait` exactly if it had just seen that it was not killed |
| `Proc.KilledReturns` | kernel/proc.c:378-386 | at the end of a round of `wait` a killed process returns |
| `Proc.NextMinds` | kernel/proc.c:99-542 | no step clears the flag but the one that frees the slot |
| `Proc.KilledForGood` | kernel/proc.c:99-542 | in every run a killed process stays killed until its slot is freed and, unless it was about to sleep when it was killed, is never asleep in `wait` again |
| `Proc.WakeVisitKeeps` | kernel/proc.c:513-523 | a turn of the loop of `wakeup` |
| `Proc.WakeEndKeeps` | kernel/proc.c:513-523 | the end of `wakeup`, also inside `exit` |
| `Proc.AllocKeeps` | kernel/proc.c:94-138 | `allocproc` takes an unused slot and a new pid |
| `Proc.AllocFailKeeps` | kernel/proc.c:94-138 | and gives the slot back if memory runs out |
| `Proc.ForkReleaseKeeps` | kernel/proc.c:249-295 | `fork` releases the child before it has a parent |
| `Proc.ForkParentKeeps` | kernel/proc.c:249-295 | `fork` sets the parent under `wait_lock` |
| `Proc.ForkRunKeeps` | kernel/proc.c:249-295 | `fork` makes the child runnable |
| `Proc.ExitStartKeeps` | kernel/proc.c:309-344 | `exit` takes `wait_lock`; not init |
| `Proc.ReparentKeeps` | kernel/proc.c:298-306 | a child goes to init, which will be woken |
| `Proc.ReparentPassKeeps` | kernel/proc.c:298-306 | a slot that is no child's |
| `Proc.ExitWakeKeeps` | kernel/proc.c:309-344 | `exit` wakes its parent |
| `Proc.ExitMarkKeeps` | kernel/proc.c:309-344 | `exit` becomes a zombie without children |
| `Proc.ExitDropKeeps` | kernel/proc.c:309-344 | `exit` releases `wait_lock` before it is off its CPU |
| `Proc.WaitStartKeeps` | kernel/proc.c:347-390 | `wait` takes `wait_lock` |
| `Proc.WaitPassKeeps` | kernel/proc.c:347-390 | `wait` passes a slot without a zombie child |
| `Proc.ReapKeeps` | kernel/proc.c:347-390 | `wait` frees a zombie child |
| `Proc.WaitFaultKeeps` | kernel/proc.c:347-390 | `wait` fails to store the status and leaves the zombie |
| `Proc.WaitEndKeeps` | kernel/proc.c:347-390 | `wait` returns without children or when killed, else is going to sleep |
| `Proc.WaitSleepKeeps` | kernel/proc.c:387-388 | `wait` calls `sleep`, which takes the process' own lock after the test for a kill has released it |
| `Proc.BootInv` | kernel/proc.c:204-224 | the state after `user_init` satisfies the invariant |
| `Proc.HandlerStepKeeps` | kernel/trap.c:132-138 | an interrupt handler takes and gives back its lock and calls `wakeup`, on any CPU at any time |
| `Proc.HandlerVisitKeeps` | kernel/trap.c:132-138 | a turn of its `wakeup` |
| `ProcLife.GoesOn` | kernel/proc.c:94-542 | in every state of the invariant a process on a CPU inside `sleep`, `yield`, `wakeup`, `fork`, `exit` or `wait` goes on, unless it waits for a lock that somebody holds |
| `ProcLife.HandlerGoesOn` | kernel/proc.c:513-523 | an interrupt handler goes on until it has given its lock back, unless it waits for a process' lock |
| `ProcLife.ChildReaped` | kernel/proc.c:249-390 | a run from boot: init forks a child and sleeps in `wait`, the child runs, exits and wakes it up, and init reaps it |
| `ProcLife.KillLost` | kernel/proc.c:347-390 | a run in which a kill between the test and the sleep of `wait` leaves the process asleep |
| `Sleeplock.MutualExclusion` | kernel/sleeplock.c:20-50 | in every run over the process steps at most one process owns the lock, and `holdingsleep`, which compares pids, is true exactly for it |
| `Sleeplock.Holdingsleep` | kernel/sleeplock.c:41-53 | in every run `holdingsleep` returns whether its caller owns the lock |
| `Sleeplock.NobodyLeftAsleep` | kernel/sleeplock.c:20-39 | with the real `sleep` and `wakeup`: whenever both locks are free nobody that wants the sleep lock is asleep or falling asleep |
| `Sleeplock.InsideKeeps` | kernel/sleeplock.c:20-53 | every step of `acquiresleep`, `releasesleep` and `holdingsleep` keeps the invariant |
| `Sleeplock.ElsewhereKeeps` | kernel/proc.c:249-542 | every step of any other process, scheduler or handler keeps it |
| `Sleeplock.NextMoves` | kernel/proc.c:249-542 | what any step does to one process: it stays in `sleep` until it returns, falls asleep only from there, and stays alive unless it exits |
| `Pipe.WrappedTests` | kernel/pipe.c:76-129 | the 32-bit tests for empty and full are right however often the counters have wrapped |
| `Pipe.StoreKeeps` | kernel/pipe.c:76-102 | a byte put in keeps first-in-first-out order and 0..PIPESIZE occupancy |
| `Pipe.TakeKeeps` | kernel/pipe.c:105-129 | the byte taken out is the oldest one |
| `Pipe.KilledWriterForgets` | kernel/pipe.c:76-129 | a call of `piperead` that sleeps and a call of `pipewrite` that is killed after its first byte leave the reader asleep on a pipe that is not empty |
| `Pipe.Pipe.constructor` | kernel/pipe.c:22-55 | an empty pipe with both ends open and nobody asleep |
| `Pipe.Pipe.Write` | kernel/pipe.c:76-102 | bytes go in in order up to the first that cannot; exact outcomes; afterwards no reader sleeps on a pipe that is not empty, exactly unless readers slept before and the writer is killed after its first byte and before ring, buffer or bytes end |
| `Pipe.Pipe.Read` | kernel/pipe.c:105-129 | sleeps exactly on an empty open pipe, fails exactly there if killed, else takes exactly the oldest bytes there are up to the number asked for and wakes writers; a byte that cannot be stored is lost |
| `Pipe.Pipe.TakeBytes` | kernel/pipe.c:118-125 | its loop: how many bytes, which, and the one that is lost |
| `Pipe.ReadGets` | kernel/pipe.c:105-129 | a reader gets what has gone, in order, but for one byte at most, and all it can |
| `Pipe.KilledForgets` | kernel/pipe.c:76-102 | a killed writer has forgotten sleeping readers exactly if it had put a byte in |
| `Pipe.OthersTell` | kernel/pipe.c:76-102 | every other end of a turn was not preceded by a kill |
| `Pipe.Pipe.Close` | kernel/pipe.c:58-73 | sleepers at the other end are woken; freed exactly when both ends are closed |
| `Pipe.Pipe.Kill` | kernel/proc.c:526-548 | a sleeper made runnable by `kill` is no sleeper any more; nothing else changes |
| `Pipe.KilledReader` | kernel/pipe.c:105-129 | a reader killed in its sleep never sleeps again: it fails exactly on an empty open pipe, and otherwise gets what came in meanwhile |
| `ShellSpec.GetToken` | user/sh.c:266-308 | a word token is a longest stretch of word characters; positions only move forward |
| `ShellRoundTrip.LineOf` | user/sh.c:345-446 | a printed tree inside any line, up to its end or a closing parenthesis, is parsed to that tree |
| `ShellRoundTrip.RoundTrip` | user/sh.c:328-446 | every command tree with proper words comes back from its fully parenthesised printed form |
| `ShellRoundTrip.WordLimit` | user/sh.c:416-446 | a command of proper words is parsed exactly if there are fewer than MAXARGS |
| `ShellGrammar.Decides` | user/sh.c:328-446 | for every line: the parser accepts it with a command exactly if some syntax tree of the grammar has the line's tokens and means that command |
| `ShellGrammar.Unambiguous` | user/sh.c:328-446 | no line has two meanings: pipes bind tighter than `&`, `&` than `;`, and redirections apply to their command wherever they stand |
| `ShellGrammar.LineSound` | user/sh.c:345-446 | what the parser accepts is the yield of a tree within the limit of arguments |
| `ShellGrammar.LineComplete` | user/sh.c:345-446 | the yield of every tree, up to the end or a closing parenthesis, is accepted with its meaning |
| `ShellGrammar.FoldMeans` | user/sh.c:375-446 | arguments are gathered in order however redirections are mixed with them, and redirections nest in their order |
| `ShellGrammar.LineSame` | user/sh.c:345-446 | parsing a line is parsing its tokens |
| `ShellLines.WordsAre` | user/sh.c:262-308 | exactly the characters that are none of the five blanks and seven symbols are in words |
| `ShellLines.ProperWord` | user/sh.c:262-263 | the words of the round trip are all strings of one or more such characters |
| `ShellLines.LexBlanked` | user/sh.c:262-308 | lines that differ in which blanks stand where, or in blanks at the end, have the same tokens in the same places |
| `ShellLines.BlanksAlike` | user/sh.c:134-160 | such lines are parsed to the same command with the same words; so the newline of `getcmd` does not matter |
| `ShellLines.TypedLine` | user/sh.c:328-446 | every proper command tree comes back from its printed form and a newline |
| `Shell.NextToken` | user/sh.c:266-308 | the loops of `gettoken` compute the token function |
| `Shell.PeekAt` | user/sh.c:311-320 | `peek` looks past spaces |
| `Shell.Parse` | user/sh.c:328-342 | leftovers are an error, otherwise the parsed tree |
| `Shell.Line` | user/sh.c:345-359 | computes the grammar function for lines and ends on every input |
| `Shell.PipeLine` | user/sh.c:362-372 | computes the grammar function for pipes |
| `Shell.RedirList` | user/sh.c:375-397 | computes the grammar function for redirections |
| `Shell.BlockOf` | user/sh.c:400-413 | computes the grammar function for blocks |
| `Shell.ExecOrBlock` | user/sh.c:416-446 | computes the grammar function for commands |
| `Shell.LineWords` | user/sh.c:345-446 | every argument and file of any parsed line is one of its words |
| `Shell.NulTerminate` | user/sh.c:450-493 | a NUL after every word of the command and no other change to the line |
| `Shell.ParseInPlace` | user/sh.c:328-342 | after `nulterminate` every argument and file string is exactly its token, for every line that parses |
| `Shell.OneString` | user/sh.c:449-493 | a C string is what stands before its first NUL, and no other |

## Left out

- Log.Log.ReadBoth: starts where the locks of the two buffers are free, because the wait for them is `Sleeplock`; other processes may hold any other buffer.
- BufferCache.BufferCache.Get: ends where it waits for the buffer's lock, because the wait itself is `Sleeplock`.
- FileSystem.FileSystem.constructor: starts from a formatted disk without files; that a disk with files satisfies the same invariants is `Mkfs.Image.Make`.
- Mkfs.Image.constructor: leaves out the bytes of the superblock, because all members take the superblock as a parameter.
- Mkfs.Image.Make: needs enough inodes, which the program does not check. Names come without directory and leading underscore.
- Mkfs.Image.Ialloc: leaves out type and link count, which are in `Links.MkfsImage`.
- Links.Tree.Create: is given the parent directory; path resolution (`namex`, `skipelem`) is not modelled, because it only reads.
- Links.Tree.Unlink: takes writes of one entry as all or nothing, because an entry never crosses a block.
- Vm.Vm.UvmAlloc: needs an old size below the trapframe and a range that is not mapped, because the code panics on a mapped page.
- Malloc.Malloc.Scan: models one round of the search; `malloc` goes round again after `morecore`, and the second round always finds a block.
- Malloc.Malloc.Morecore: needs a size whose bytes fit an `int`; what happens otherwise is `MallocSpec.SbrkWhole` and `ShrinksExactly`.
- Malloc.Malloc.Allocate: keeps the heap below 2^32 units of 16 bytes, because memory is far smaller; addresses count such units, so replies of `sbrk` are multiples of 16 bytes. They are unless the program itself calls `sbrk` with other sizes.
- Virtio.Disk.Submit: is one step from taking the lock to the first wait, because the device only looks at a request once the index has moved.
- Proc.PickKeeps: leaves out the lottery, because its ticket totals are never reset; any runnable process may be chosen.
- Proc.NeverAgain: counts pids without bound; the `int` of the source overflows after 2^31 - 1 processes, and the result holds for fewer.
- Proc.SleepLockKeeps: takes it from callers of `sleep` that they hold the one lock they pass and no other.
- Proc.AllocKeeps: leaves out trapframe, page table and files of a process; page tables are in `Vm`.
- Inodes on disk: `iupdate`, `ilock`, `iget` and the inode table; inodes are seen as memory has them.
- `uvm_clear`, `uvm_first`, `kvm_make` and the kernel's own page table.
- `push_off` and `pop_off`: a held spin lock stands for interrupts that are off.
- Sleeplock.ElsewhereKeeps: takes it from callers that nobody else uses the spin lock and that no owner of the sleep lock exits.
- `exec`, system call arguments, file descriptor tables, console, printing.
- Boot, traps, assembly, device registers; memory order is sequentially consistent.
- `runcmd` of the shell and the buffer handling of grep.
- The ring of the console, which repeats the pipe with less in it.
