# RYMOS kernel models

RYMOS is a small x86-64 operating system: one kernel file, a user runtime, and Python tools that build its disks. This
project models its state machines in Dafny and proves what they promise, for every input and every run.

- **RYMFS5** (`PfsFormat`, `PfsAlloc`, `PfsTable`, `PfsNamespace`, `PfsFiles`, `PfsBytes`, `PfsWrites`, `PfsDisk`, `PfsOpens`,
  `PfsUndo`, `PfsRuns`, `PfsStale`, `PfsHost`, `PfsPaths`, with `FdTypes`): the extent file system over a mutable array of sectors, its 256-entry
  table inside the header bytes, the free-space search that has no bitmap, handles, path normalisation, and the host
  uploader. The disk refines a map from names to contents; every operation is proved against that map with its exact success
  condition, and over whole runs every byte of a file is traced to the write it came from.
- **Paging** (`PageTables`, `PhysPages`, `PageOwners`, `Mappings`, `AddressSpaces`, `ProcessSpaces`, `ImagePages`,
  `PageReturn`, `SpaceTeardown`, `WindowTables`, `UserMemory`, `Sparing`, `ProcessMemory`, `ProcessExit`, `ProcessStacks`,
  `ProcessStart`, `UserHeap`, `UserSpaces`): four-level tables in physical memory (Intel SDM Volume 3A, section 4.5). A walk
  is a partial map from addresses to frames. A ghost map `roles` says of every page in use which table or datum of which
  owner it is; the invariant ties it to the pool and to every entry, so that every page of the machine is never handed out,
  on the free stack, or in exactly one use. On top of it: creating an address space, private image pages, process memory
  calls, exit, stacks, the user allocator, and all processes together, whose calls may come in any order.
- **Scheduler** (`Scheduling`, `SchedulerRuns`, `SchedulerSteps`, `Scheduler`): the process table as a value with its steps, theorems over runs
  of steps, and a class whose methods do what the kernel does to its table and are proved equal to the steps.
- **Pipes and descriptors** (`Pipes`, and `Descriptors` for the one table that pipes and files share), **environment, current
  directory and commands** (`Environment`, `WorkingDir`, `Command`), **FAT32 image** (`FatImage`), **calendar**
  (`CivilDays`). `Common` holds what several of these share.

Code that updates state is a class or a method on arrays, proved against a function or predicate on values; the lemmas are
about those. `dafny verify dfyconfig.toml` checks everything.

## Hypotheses

The code does not enforce these; each appears as a precondition.

- A timer tick lands only while program code runs, never inside a kernel call (`Legal`, step `Tick`).
- Deadlock freedom supposes that a wait names an unreported child of the caller (`Polite`). The other theorems about runs
  allow any number; what such a wait does is `WaitOutcome`, `SpentWaitHangs` and `SelfWaitHangs`.
- Fewer than 2^32 - 1 processes are ever spawned; where windows must not meet, process numbers are below 16384 (`WindowsMeet`
  shows that 16384 is exactly where they start to).
- Page 0 is not a page of the pool. The kernel adds memory from 0x9000000 on only.
- The contents theorems about one handle suppose that no other handle has changed the length of its file since it was opened;
  what happens otherwise is under the next heading. `NoLeftovers` and `DiskNoLeftovers` do not suppose it.
- A program's blocks stay mapped as long as the program does not itself unmap the chunks of its allocator (`tidy`); what
  other processes have does not depend on that.
- The name of a directory that a process changes to has at most 60 bytes (`Short`), as the kernel stops on an index check
  otherwise.
- Extents read from a formatted disk end below 2^32, as they do in every state the operations reach (`EndsFit`).
- While a caller waits for a child, nobody closes a descriptor that was open when the wait began (`Considerate`). Any calls on
  files, pipes and names are allowed besides: positions and remembered lengths of all descriptors may move
  (`Descriptors.OthersRun`).
- Theorems about runs follow the console's own wait as long as some slot has the number it waits for (`Legal`); what it does
  afterwards is under the next heading.

## What the code does, and does not

Where the code does not meet what is expected of it, the exact condition is proved beside an example.

- Renaming an empty directory to a name inside itself succeeds and leaves that name without a parent
  (`RenameIntoItselfBreaksTree`); all other successful renames keep the tree (`RenameKeepsTreeIff`).
- A handle remembers the length its file had at open. A write through it is the intended one exactly when the remembered and
  the real length lie on the same side of its end (`StaleHandleIff`); otherwise it can shorten the file
  (`StaleHandleTruncates`). A read is the intended one exactly when both lengths leave it the same number of bytes
  (`StaleReadIff`); otherwise it can give bytes past the end of the file, which are whatever its sectors hold there.
  `TwoHandles` reaches both with two opens of one file.
- A temporary override of a variable uses up a slot exactly when its key had none (`RoundTripUsesSlot`), so a process can run
  out of slots although its environment never looks different (`RoundTripsExhaust`).
- `restore_stdio` cannot put back a standard descriptor whose target was closed; `StdBack` says exactly which ones come back.
- A top-level run of a program that exists but cannot be prepared leaves a process nobody waits for. Its slot is held exactly
  until some wait reports the number (`SlotHeldIff`). Sixteen of them fill the table, and no program starts until the
  console's `wait <pid>` command has collected one (`FailedRunsFillTable`, `CollectFreesSlot`).
- A wait for a number that was already reported never returns while the number still has its slot (`SpentWaitHangs`); a wait
  for the caller's own number never does (`SelfWaitHangs`). What wakes a process blocked on a number is
  the exit of that process and nothing else (`WokenByExit`). The console polls instead of blocking; when it polls for a
  reported number and no process is ready, the machine stands still (`ConsolePollsForever`).
- After its wait the console marks the slot it started its program in as reported, also when the wait found the number gone.
  The mark then falls on the process that took the slot over. It changes something exactly if that process was not reported
  yet, and leaves the table in order exactly if it is not alive (`MarkOnAnother`); `MarkTakesReport` reaches a run in which
  an exit code gets lost that way. After a report the mark changes nothing (`MarkAfterReport`).
- The current directory is restored after a command exactly if it is still a directory (`ChdirBack`).
- From a directory at the top, changing to `..` is refused, as the path it stands for is empty (`ChdirUp`).
- The comment at kernel/src/main.rs:2104-2116 says windows never share a page table; that holds below process 16384 only.

## Model

| member | source | states |
|---|---|---|
| `PfsFormat.SetEntry` | kernel/src/main.rs:3615-3648 | the 152-byte slot is rewritten in place; reading the whole table back gives the old table with exactly that entry replaced |
| `PfsFormat.DecodeEncoded` | kernel/src/main.rs:3488-3563 | round trip: the entry readers return exactly the entry whose bytes are in the slot |
| `PfsFormat.DecodeLocal` | kernel/src/main.rs:3476-3563 | an entry read from a slot depends on no byte outside the slot, as long as its name fits |
| `PfsFormat.PutSize` | kernel/src/main.rs:1729-1740 | only the size and modification-time bytes of one slot change |
| `PfsFormat.TablePatched` | kernel/src/main.rs:1729-1740 | after that edit the table differs in one entry's size and modification time only |
| `PfsFormat.ClearEntry` | kernel/src/main.rs:3650-3653 | the slot reads back as free, every other entry as before |
| `PfsAlloc.FindFreeRun` | kernel/src/main.rs:1846-1896 | terminates despite restarting its scan; returns the first free stretch at or after the start, as long as possible up to the cap; none exactly when the cap is 0 or every sector there is owned |
| `PfsAlloc.FirstRunUnique` | kernel/src/main.rs:1846-1896 | only one extent meets that description |
| `PfsAlloc.TotalSectors` | kernel/src/main.rs:3517-3524 | the sum of extent lengths is the number of sectors the file has |
| `PfsAlloc.LbaForSector` | kernel/src/main.rs:3530-3548 | a logical sector is found exactly when the extents reach it, and it is the one at that position in extent order |
| `PfsAlloc.FreeListSound` | kernel/src/main.rs:1846-1896 | the list of the next free sectors names only sectors no other file owns, in ascending order |
| `PfsAlloc.FreeListComplete` | kernel/src/main.rs:1846-1896 | it leaves out no free sector before its end |
| `PfsAlloc.GrowExtents` | kernel/src/main.rs:1751-1784 | succeeds if and only if enough sectors free of other files lie after the last extent and the result has at most four maximal runs; then exactly those sectors are appended and every old logical sector keeps its place |
| `PfsAlloc.TooManyRuns` | kernel/src/main.rs:1766-1776 | a fifth extent during growth means no growth within four runs exists |
| `PfsAlloc.CanonicalRuns` | kernel/src/main.rs:1751-1784 | for sorted, gapped extents the number of extents is the number of maximal runs |
| `PfsTable.CheckPath` | kernel/src/main.rs:3708-3727 | accepts exactly the valid path names |
| `PfsTable.FindEntry` | kernel/src/main.rs:3570-3577 | the first used entry with the name, none exactly when no entry has it |
| `PfsTable.FreeEntry` | kernel/src/main.rs:3606-3613 | the first unused entry, none exactly when all are used |
| `PfsTable.ParentExists` | kernel/src/main.rs:3579-3591 | true exactly when the part before the last slash is absent or names a directory |
| `PfsTable.DirEmpty` | kernel/src/main.rs:3593-3604 | true exactly when no used entry lies below the directory |
| `PfsTable.FilesShareNoSector` | kernel/src/main.rs:1751-1837 | no sector belongs to two files |
| `PfsTable.SectorsInDataArea` | kernel/src/main.rs:1751-1837 | every sector of a file lies in the data area |
| `PfsNamespace.RenameKeepsTreeIff` | kernel/src/main.rs:3666-3706 | a successful rename keeps every name's parent present if and only if the new name is not put directly into the entry being renamed |
| `PfsNamespace.RenameIntoItselfBreaksTree` | kernel/src/main.rs:3680-3685 | the code accepts renaming the empty directory a to a/b, and a/b then has no parent |
| `PfsNamespace.StepKeepsTree` | kernel/src/main.rs:3655-3706 | create, mkdir, unlink and every other rename keep names distinct and valid and every parent present |
| `PfsNamespace.StepSucceedsIff` | kernel/src/main.rs:3655-3706 | mkdir, create, unlink and rename succeed, and report that something exists or is missing, exactly as the entries of the table say; on an error the table is as it was |
| `PfsNamespace.RunKeepsTree` | kernel/src/main.rs:3655-3706 | the same over any sequence of such calls |
| `PfsNamespace.ListEntry` | kernel/src/main.rs:4979-5012 | asking for index n gives the n-th listed child, none past the end |
| `PfsNamespace.ListsEachChildOnce` | kernel/src/main.rs:3729-3753 | over indices 0, 1, 2, ... each immediate child appears exactly once, in the order of the table, and nothing else does |
| `PfsFiles.FilesStep` | kernel/src/main.rs:3570-3577 | the map from names to contents after one entry changed differs in that entry's names only |
| `PfsFiles.FullTable` | kernel/src/main.rs:3606-3613 | there is no free entry exactly when 256 names are in use |
| `PfsFiles.StepRefinesMap` | kernel/src/main.rs:3655-3706 | mkdir, create, unlink and rename on the table are the same operations, with the same errors, on a map from names to contents; no other file changes |
| `PfsUndo.MadeOnce` | kernel/src/main.rs:5028-5065 | after mkdir or create the name is there, empty, and no other has come or gone; the same mkdir again is refused, the same create changes nothing |
| `PfsUndo.UnlinkUndoesMake` | kernel/src/main.rs:5723-5744 | unlinking what was just made brings the files back if and only if it is a file or nothing lies below its name; else it is refused |
| `PfsUndo.RenameMoves` | kernel/src/main.rs:3666-3706 | a rename moves one name with its contents and nothing else |
| `PfsUndo.RenameUndoesRename` | kernel/src/main.rs:3666-3706 | the opposite rename brings all names back, if the old directory is there and nothing lies below the new name |
| `PfsBytes.WriteBytes` | kernel/src/main.rs:1664-1693 | read-modify-write of each touched sector lays the data over the file's bytes and touches no sector outside it |
| `PfsBytes.ZeroRange` | kernel/src/main.rs:1699-1727 | the range reads zero, the rest of the file as before; sectors wholly inside are not read first |
| `PfsBytes.ReadBytes` | kernel/src/main.rs:1615-1642 | returns the bytes at the range, and succeeds exactly when the extents reach over it |
| `PfsBytes.ReadHeader` | kernel/src/main.rs:1582-1600 | gives the header bytes of the first sectors; succeeds exactly on a formatted disk |
| `PfsBytes.WriteHeader` | kernel/src/main.rs:1602-1612 | the header reads back as written and no data sector changes |
| `PfsWrites.SectorsForLen` | kernel/src/main.rs:1898-1904 | the least number of sectors that holds the bytes |
| `PfsWrites.GrowEntry` | kernel/src/main.rs:1792-1837 | succeeds exactly when the file can be grown within its four extents; the structural invariant survives |
| `PfsWrites.GrownKeepsWellFormed` | kernel/src/main.rs:1751-1837 | growth keeps extents of all files disjoint, inside the data area, non-empty, ascending with gaps, at most four |
| `PfsWrites.Written` | kernel/src/main.rs:1644-1693 | what a write means: length the larger of old and end, data at the offset, zeros in any gap, old bytes elsewhere |
| `PfsWrites.StaleHandleIff` | kernel/src/main.rs:4817-4836 | a write through a handle with a remembered length is that meaning if and only if the remembered and the real length lie on the same side of the end of the write |
| `PfsWrites.FreshHandleWrites` | kernel/src/main.rs:4815-4838 | with the real length it always is |
| `PfsWrites.StaleHandleTruncates` | kernel/src/main.rs:4815-4838 | a second handle opened while the file was empty cuts three bytes down to one |
| `PfsDisk.Pfs.Mkdir` | kernel/src/main.rs:5028-5065 | on disk and on the file map: the mkdir step, its error, nothing else; the disk is untouched on every error |
| `PfsDisk.Pfs.Unlink` | kernel/src/main.rs:5723-5744 | likewise for unlink, which also refuses a directory with entries |
| `PfsDisk.Pfs.Rename` | kernel/src/main.rs:5746-5787 | likewise for rename |
| `PfsDisk.RenameIn` | kernel/src/main.rs:3666-3706 | the header edit of rename is the rename step on the decoded table |
| `PfsDisk.UnlinkIn` | kernel/src/main.rs:3655-3664 | the header edit of unlink is the unlink step on the decoded table |
| `PfsDisk.Pfs.EnsureFileCapacity` | kernel/src/main.rs:1792-1837 | succeeds exactly when the file holds or can grow to the size; only the file's entry changes, no data sector |
| `PfsDisk.Pfs.UpdateSize` | kernel/src/main.rs:1729-1740 | changes size and modification time of one used entry and nothing else |
| `PfsDisk.Pfs.WriteAt` | kernel/src/main.rs:1644-1693 | succeeds exactly when the end is within the limit and the file can hold it; then the contents are the written ones and every other file is byte-identical; on failure the disk is unchanged |
| `PfsDisk.Pfs.ReadAt` | kernel/src/main.rs:1615-1642 | succeeds exactly when the entry's sectors reach over the range, and returns what they hold |
| `PfsDisk.CoveredReads` | kernel/src/main.rs:1615-1642 | within the size of a file that is the file's contents |
| `PfsDisk.WrittenReadsBack` | kernel/src/main.rs:4780-4838 | what a successful write through a handle put down is what every readable handle of that file reads there; the bytes are part of the file if and only if the write ends past the handle's remembered length or within the real one |
| `PfsDisk.Pfs.Open` | kernel/src/main.rs:4624-4709 | open, create, create-new and truncate on the file map with their exact errors; the handle goes to the first closed slot, names the file's entry and stands where `OpenedReads` and `OpenedWrites` say |
| `PfsUndo.OpenSucceedsIff` | kernel/src/main.rs:4624-4709 | an open succeeds if and only if the name is valid and in a directory there is, the flags go together, the name is a file that need not be new or is free and may be made, and a descriptor is closed |
| `PfsUndo.OpenMayChange` | kernel/src/main.rs:4624-4709 | it changes no other file; without truncation it changes none there is, without create it makes none; what it makes is an empty file, what it truncates keeps all but its bytes |
| `PfsOpens.OpenedReads` | kernel/src/main.rs:4686-4778 | a read through a handle just opened gives the first bytes of the file, as many as were asked for; nothing if it was opened to append |
| `PfsOpens.OpenedWrites` | kernel/src/main.rs:4686-4838 | a write through it goes over the beginning of the file, or behind its end if it was opened to append; no other file changes |
| `PfsOpens.ReadsAnywhere` | kernel/src/main.rs:4711-4778 | a read at any position gives what the file has there, as many bytes as remain and were asked for |
| `PfsOpens.RefusedWriteStays` | kernel/src/main.rs:4815-4820 | a refused write leaves the handle as it was, but for the position of one that appends, which is at the end then |
| `PfsOpens.ReadsInPieces` | kernel/src/main.rs:4711-4778 | two reads in a row give what one of both lengths gives |
| `PfsOpens.WritesInPieces` | kernel/src/main.rs:4780-4838 | two writes in a row leave what one of both pieces leaves |
| `PfsOpens.OpenAndRead` | kernel/src/main.rs:4624-4778 | the two calls in a row: the first bytes of the file that open left |
| `PfsOpens.OpenAndWrite` | kernel/src/main.rs:4624-4838 | the two calls in a row: what open left, overwritten from the beginning or appended to |
| `PfsDisk.OpenRefines` | kernel/src/main.rs:4644-4685 | the table edit of open is the map operation |
| `PfsDisk.Pfs.WriteFd` | kernel/src/main.rs:4780-4838 | exact success condition; the file map changes in the handle's file only; the file's sectors hold the data where it was written; position and remembered length advance; other handles are unchanged |
| `PfsDisk.Pfs.ReadFd` | kernel/src/main.rs:4711-4778 | gives what the sectors hold, as many bytes as fit and remain by the remembered length; advances by that much, and leaves all else alone |
| `PfsDisk.StaleReadIff` | kernel/src/main.rs:4757-4777 | a read through an open handle gives the bytes of the file itself if and only if the remembered and the real length leave it the same number of bytes |
| `PfsStale.TwoHandles` | kernel/src/main.rs:4624-4838 | reached from a disk without files: of two handles on the empty file the second one cuts what the first one wrote to one byte, and the first one still reads three |
| `PfsStale.OnlyFileFits` | kernel/src/main.rs:1751-1784 | the only file of a disk can always have its first sector |
| `PfsDisk.Pfs.SeekFd` | kernel/src/main.rs:4840-4867 | any position is accepted for an open file and only that position changes |
| `PfsRuns.WriteIsStep` | kernel/src/main.rs:4780-4838 | a handle write seen on the map, as one step of a run |
| `PfsRuns.OpenIsStep` | kernel/src/main.rs:4624-4709 | an open seen on the map, as one step of a run |
| `PfsRuns.NamespaceCallIsStep` | kernel/src/main.rs:3655-3706 | mkdir, unlink and rename on the disk seen on the map, as one step of a run |
| `PfsRuns.DiskRunIsRun` | kernel/src/main.rs:1644-1740 | every run of calls on the disk, through whatever handles, is a run on the map |
| `PfsRuns.NoLeftovers` | kernel/src/main.rs:1694-1727 | over every run from an empty file system: if some call last wrote this byte of this file, followed through renames, and the file has had the byte ever since, the byte is what that call put there; if none did since the file was created, truncated or shorter than that, the byte is zero; one of the two is always the case |
| `PfsRuns.ByteBefore` | kernel/src/main.rs:1644-1740 | after one call a byte of a file is what the call wrote there, or what the same file had there before, or new and zero |
| `PfsRuns.LastWriteUnique` | kernel/src/main.rs:1644-1740 | at most one call is the last to write a byte |
| `PfsRuns.DiskNoLeftovers` | kernel/src/main.rs:1694-1727 | the same of every run on a disk that starts without files: a byte of a file is zero or the byte that the last write there supplied |
| `PfsHost.AllocExtents` | scripts/pfs_put.py:239-253 | the uploader's allocator succeeds exactly when the first free sectors form at most four runs, and takes those |
| `PfsHost.FourRunsUsed` | scripts/pfs_put.py:239-247 | giving up after four extents is right: the needed sectors have more than four runs |
| `PfsHost.WriteFileData` | scripts/pfs_put.py:126-135 | the file's sectors begin with the data and no other sector changes |
| `PfsHost.CreateFile` | scripts/pfs_put.py:105-123 | succeeds exactly under its stated condition; the file map gains or replaces that one file; header and disk are untouched otherwise |
| `PfsHost.CreateDir` | scripts/pfs_put.py:105-123 | adds one directory entry, or fails exactly when no entry is free |
| `PfsHost.DirsAddedIff` | scripts/pfs_put.py:63-68 | the missing parent directories can be made if and only if no file is in the way and the names fit in 256 entries; the map then has exactly them in addition |
| `PfsHost.ParentDirsChain` | scripts/pfs_put.py:266-268 | the parent list leads from the top to the direct parent |
| `PfsHost.Upload` | scripts/pfs_put.py:48-72 | all or nothing on the file map with the exact success condition; the structural invariant and the directory tree survive |
| `PfsHost.UploadedMeans` | scripts/pfs_put.py:63-71 | after an upload the file has the data, its parents are directories, and every other name is as before |
| `PfsPaths.PushComponent` | kernel/src/main.rs:3851-3871 | appends one component, refused exactly if it is not a legal component or the path would be over 96 bytes |
| `PfsPaths.PopComponent` | kernel/src/main.rs:3873-3882 | the buffer holds the path without its last component, its tail zeroed |
| `PfsPaths.PopUndoesPush` | kernel/src/main.rs:3851-3882 | pushing a component and popping it again leaves the buffer and its length as they were, byte for byte |
| `PfsPaths.HoldsOne` | kernel/src/main.rs:3851-3882 | the components fix all 96 bytes of the buffer |
| `PfsPaths.NextComponent` | kernel/src/main.rs:3909-3922 | yields the next non-empty part between slashes; none exactly when there is none |
| `PfsPaths.SplitJoin` | kernel/src/main.rs:3909-3922 | splitting a joined path gives its components back |
| `PfsPaths.Normalize` | kernel/src/main.rs:3823-3849 | is a fold over the components with . and .. on a stack, whose meaning the next rows say; fails exactly when a step fails or the root remains |
| `PfsPaths.UpCancels` | kernel/src/main.rs:3823-3849 | p/c/../q leads where p/q does, for every component c but the dots; refused exactly if p/c is over 96 bytes |
| `PfsPaths.HereCancels` | kernel/src/main.rs:3823-3849 | p/./q leads where p/q does |
| `PfsPaths.UpIsParent` | kernel/src/main.rs:3836-3843 | .. against a base without dots leads to its parent, and to the top exactly from a base of at most one component |
| `PfsPaths.UpAtTop` | kernel/src/main.rs:3836-3843 | .. at the top stays there |
| `PfsPaths.RelativeName` | kernel/src/main.rs:3823-3849 | a name is looked up below the base |
| `PfsPaths.AbsoluteName` | kernel/src/main.rs:3823-3849 | a name after a slash is looked up at the top, whatever the base |
| `PfsPaths.ResolvedClean` | kernel/src/main.rs:3823-3849 | from a base without dots every result is a valid path of at most 96 bytes with no leading slash and no . or .. component |
| `PfsPaths.Idempotent` | kernel/src/main.rs:3823-3849 | normalising a result again changes nothing |
| `PageTables.PathOfBits` | kernel/src/main.rs:3460-3474 | the four table indices are bits 39-47, 30-38, 21-29 and 12-20 of the address |
| `PageTables.DigitsInjective` | kernel/src/main.rs:3460-3474 | page addresses in one 48-bit half have different index paths |
| `PageTables.WriteFrame` | kernel/src/main.rs:2594-2623 | with an unshared tree, writing an entry is invisible to every walk that does not pass its place |
| `PageTables.PrivateFrame` | kernel/src/main.rs:2728-2743 | writing a private table is invisible to every walk from another owner's table |
| `PageTables.ReachedRole` | kernel/src/main.rs:2594-2623 | the table a walk reaches has the place the walk spells and the root's owner or the kernel |
| `PageTables.SharedTopEntry` | kernel/src/main.rs:2793-2869 | roots with the same top-level entry translate everything below it alike |
| `PhysPages.TakeExact` | kernel/src/main.rs:600-618 | allocation fails only when nothing is free; otherwise exactly the returned page stops being free |
| `PhysPages.GiveExact` | kernel/src/main.rs:620-628 | freeing succeeds exactly when the stack has room, and makes exactly that page free |
| `PhysPages.TakeUndoesGive` | kernel/src/main.rs:600-628 | a freed page is the next one handed out |
| `PhysPages.TakeCounts` | kernel/src/main.rs:600-618 | each allocation uses up one page, and fails only when none is left |
| `PhysPages.PhysPageAllocator.AddRange` | kernel/src/main.rs:589-598 | exactly the whole pages of the stretch become free, if there is room for a range |
| `PhysPages.PhysPageAllocator.AllocPage` | kernel/src/main.rs:600-618 | is the pool's allocation; the page count stays balanced |
| `PhysPages.PhysPageAllocator.FreePage` | kernel/src/main.rs:620-628 | is the pool's free; the page count stays balanced |
| `PageOwners.AllocOwned` | kernel/src/main.rs:2957-2966 | taking a page keeps ownership exact: no page has two uses, and the taken page had none |
| `PageOwners.OneUse` | kernel/src/main.rs:582-628 | every page of the machine is exactly one of never handed out, on the free stack, or in use |
| `PageOwners.AccountedTake` | kernel/src/main.rs:600-618 | when a page leaves the pool and appears among those in use, every page is still accounted for |
| `PageOwners.AccountedGive` | kernel/src/main.rs:620-628 | and when one goes back and is no longer among them |
| `PageOwners.LinkOwned` | kernel/src/main.rs:2625-2639 | linking a zeroed page as a table keeps exact ownership and changes no translation |
| `PageOwners.BindOwned` | kernel/src/main.rs:2617-2623 | mapping a page at a vacant place keeps exact ownership |
| `PageOwners.UnbindOwned` | kernel/src/main.rs:2655-2665 | the page a kernel-made entry maps is the data page of that owner and place, and is mapped at no other such place |
| `PageOwners.FreeOwned` | kernel/src/main.rs:2968-2973 | freeing a page nothing refers to keeps exact ownership |
| `PageOwners.LeafWrite` | kernel/src/main.rs:2617-2623 | writing a bottom entry changes exactly the walks that reach its table and index |
| `PageOwners.OwnerClosed` | kernel/src/main.rs:2876-2902 | nothing outside a process's private pages leads into them |
| `PageOwners.CutOwned` | kernel/src/main.rs:2117-2164 | clearing an upper entry with no data below changes no translation, and exactly its subtree comes loose |
| `Mappings.BindsExactly` | kernel/src/main.rs:2617-2623 | one binding appears, for exactly the walks that share the entry |
| `Mappings.UnbindsExactly` | kernel/src/main.rs:2655-2665 | one binding disappears, for exactly those walks |
| `Mappings.OwnReached` | kernel/src/main.rs:2594-2623 | every table of an owner is reached by walking its place from the owner's root |
| `Mappings.DataReached` | kernel/src/main.rs:2594-2623 | every data page is what its place translates to |
| `Mappings.RolledBack` | kernel/src/main.rs:2667-2682 | unmapping what a failed run mapped restores every translation |
| `Mappings.RunUndone` | kernel/src/main.rs:2667-2682 | and leaves no data page of the run in use |
| `AddressSpaces.Vm.AllocZeroedPage` | kernel/src/main.rs:2957-2966 | a zeroed page that was not in use, or failure with no page left and nothing changed |
| `AddressSpaces.Vm.constructor` | kernel/src/main.rs:2793-2869 | the boot-time tables, whose first gigabyte is mapped by large pages, satisfy the invariant, and address spaces can be created from them |
| `AddressSpaces.BootOwned` | kernel/src/main.rs:2793-2869 | the same on values |
| `AddressSpaces.Vm.FreePhysPage` | kernel/src/main.rs:2968-2973 | returned exactly when the stack has room |
| `AddressSpaces.Vm.EnsureNextTable` | kernel/src/main.rs:2625-2639 | the table an entry leads to, made if absent from a page of the pool and entered under its place; no translation changes; no page is lost; fails only without pages or at a large page |
| `AddressSpaces.Vm.MapPage` | kernel/src/main.rs:2594-2623 | adds exactly one binding, at an address that was unmapped, or leaves all translations unchanged; every page that left the pool has its use; fails at an unmapped aligned address only when pages run out |
| `AddressSpaces.Vm.UnmapPage` | kernel/src/main.rs:2641-2665 | removes exactly one binding and returns its page, exactly when the aligned address is mapped |
| `AddressSpaces.Vm.PageMapped` | kernel/src/main.rs:2698-2712 | true exactly when the aligned address is mapped |
| `AddressSpaces.Vm.UnmapUserPages` | kernel/src/main.rs:2684-2696 | every mapped page of the run is unmapped and given back once; the count is the number of pages that returned |
| `AddressSpaces.Vm.MapUserPages` | kernel/src/main.rs:2667-2682 | the whole run is mapped to pages not in use before, or every translation is as before and no data page is left over; every page that left the pool has its use; fails on a vacant run only with fewer than four free pages per page of the run, and uses at most that many |
| `ProcessSpaces.ImageWindow` | kernel/src/main.rs:2793-2869 | the zeroed page-directory entries are exactly addresses 0x200000 to 0x9000000 |
| `ProcessSpaces.CloneTranslates` | kernel/src/main.rs:2793-2869 | a cloned root translates nothing in the image window and agrees with the kernel root everywhere else |
| `ProcessSpaces.SameTop` | kernel/src/main.rs:2793-2869 | every root that has an upper-half entry has the kernel root's |
| `ProcessSpaces.SeesOwnWindows` | kernel/src/main.rs:2793-2830 | whatever the kernel root maps in a process's heap, mmap and stack windows, now or later, is what the process sees |
| `ProcessSpaces.WindowTops` | kernel/src/main.rs:2793-2830 | those windows have top-level entries 288-295, 320-351 and 352 for processes below 16384 |
| `ProcessSpaces.PretouchWindows` | kernel/src/main.rs:2793-2830 | the three top-level entries are present afterwards; no translation changes |
| `ProcessSpaces.CreateProcessAddressSpace` | kernel/src/main.rs:2793-2869 | a new root that is the kernel's without the image window; no existing translation changes; on failure nothing but shared tables is kept, and failure means fewer than six pages or missing low tables; success takes at most six |
| `ImagePages.SharerIsOwn` | kernel/src/main.rs:2728-2743 | only walks of the same process pass a private entry |
| `ImagePages.MapImagePages` | kernel/src/main.rs:2728-2743 | no other root's translation changes, also on a failure halfway; on success every page of the run is mapped, for at most four pages each; failure means fewer than that were free |
| `SpaceTeardown.DestroyProcessAddressSpace` | kernel/src/main.rs:2876-2902 | each page only this process owns is returned exactly once (kept only if the free stack is full); every other page keeps its use |
| `PageReturn.ReturnedOwned` | kernel/src/main.rs:2876-2902 | returning the released pages keeps exact ownership |
| `WindowTables.HeapIndices` | kernel/src/main.rs:2117-2145 | a heap window is 128 page-directory slots of one directory, aligned to its stride |
| `WindowTables.MmapIndices` | kernel/src/main.rs:2145-2164 | an mmap window is one whole page directory |
| `WindowTables.StackIndices` | kernel/src/main.rs:2926-2947 | a stack window is one page-directory slot |
| `WindowTables.WindowsApart` | kernel/src/main.rs:2104-2116 | no page table or page serves the windows of two processes below 16384 |
| `WindowTables.WindowsMeet` | kernel/src/main.rs:2104-2116 | process 16384's mmap window is where the stacks of processes 0 to 511 are |
| `WindowTables.ReclaimSlots` | kernel/src/main.rs:2117-2145 | the page tables of the heap slots are returned, each once, and their entries cleared; no translation changes |
| `WindowTables.ReclaimDir` | kernel/src/main.rs:2145-2164 | the mmap page directory and its page tables are returned, each once, and the entry above cleared; no translation changes |
| `WindowTables.ReclaimProcessWindowTables` | kernel/src/main.rs:2117-2164 | every table of the two windows goes, each once; no translation changes |
| `WindowTables.NotAnothers` | kernel/src/main.rs:2104-2164 | none of those tables serves an address in another process's windows |
| `UserMemory.WindowExact` | kernel/src/main.rs:5576-5679 | a page of the heap or mmap window is mapped exactly when a recorded run contains it |
| `UserMemory.MappedKeeps` | kernel/src/main.rs:5590-5613 | recording and mapping a fresh run keeps that |
| `UserMemory.RemovedKeeps` | kernel/src/main.rs:5665-5679 | unmapping and striking off a run keeps that |
| `UserMemory.MappedIsData` | kernel/src/main.rs:2594-2623 | a page seen at an address the kernel maps itself is the data page of exactly that owner and place |
| `UserMemory.PagesApart` | kernel/src/main.rs:2594-2623 | so no page is seen at two such addresses, nor by two processes in their images |
| `Sparing.RegionsApart` | kernel/src/main.rs:2104-2116 | heap and mmap windows and stack slices of all processes below 16384 have no address in common |
| `Sparing.RunMappedSpares` | kernel/src/main.rs:2667-2682 | mapping a run inside one process's windows or stack leaves every other process its root, its view of all other addresses and its data pages |
| `Sparing.EmptiedSpares` | kernel/src/main.rs:2684-2696 | so does unmapping one |
| `Sparing.MemoryKept` | kernel/src/main.rs:5576-5679 | the record of a process whose windows were left alone still says exactly what is mapped there |
| `Sparing.OwnerHasRoot` | kernel/src/main.rs:2876-2902 | a process without a root owns no page at all |
| `ProcessMemory.ProcessMemory.constructor` | kernel/src/main.rs:6049-6066 | a fresh process has empty windows and both pointers at their bases |
| `ProcessMemory.ProcessMemory.TrackMapping` | kernel/src/main.rs:2035-2054 | rewrites exactly the first unused record, fails exactly when all are used, with the records as they were |
| `ProcessMemory.ProcessMemory.UntrackMapping` | kernel/src/main.rs:2056-2073 | strikes off exactly one record of exactly this run, fails exactly when there is none |
| `ProcessMemory.ProcessMemory.MemAllocPages` | kernel/src/main.rs:5576-5613 | a fresh mapped run at the old end of the heap and one more record; refused by the call limit and the window with everything as it was, or for lack of records or pages, with no translation or record changed but the end of the heap moved on as by a grant; all other processes are spared |
| `ProcessMemory.ProcessMemory.MemMapPages` | kernel/src/main.rs:5615-5663 | likewise in the mmap window, between two reserved guard pages when asked, which count against the window |
| `ProcessMemory.ProcessMemory.MemUnmapPages` | kernel/src/main.rs:5665-5679 | succeeds exactly for a whole recorded run, whose record is struck off; the run's pages are returned, pointers stay; all other processes are spared |
| `ProcessMemory.ProcessMemory.GuardUnmapped` | kernel/src/main.rs:5615-5663 | a reserved guard page is unmapped from the kernel root in every valid state; that every call of every process leads to one is `UserSpaces.Spaces.Serve` |
| `ProcessExit.ReclaimMappings` | kernel/src/main.rs:2075-2095 | every recorded run is unmapped and returned, and counted |
| `ProcessExit.ExitProcess` | kernel/src/main.rs:3421-3442 | all pages that were the process's alone (runs, window tables, private tables and image) are returned, each once; no other page changes use; no root that is left translates any address outside the process's windows differently; the number is idle and all other processes are spared |
| `ProcessStacks.CreateProcessStack` | kernel/src/main.rs:2911-2920 | the top of a freshly mapped stack, or no translation changes |
| `ProcessStacks.ReclaimProcessStack` | kernel/src/main.rs:2926-2947 | the stack's pages and its page table are returned once and nothing is left of it; nothing outside the stack window translates differently |
| `ProcessStacks.StackGone` | kernel/src/main.rs:2926-2947 | when those pages are returned the slice holds no data page, and no other slice has gained one |
| `ProcessStart.LoadSegments` | kernel/src/main.rs:6227-6289 | success means every page of every segment is mapped in the process's own image; nobody else notices, also on a failure halfway; failure means a segment that is broken or outside the area for programs, or fewer than four free pages for each page of the image |
| `ProcessStart.PrepareProcess` | kernel/src/main.rs:5339-5386 | a process with image and stack and an empty record, or a number as idle as before; all others are spared; failure means a segment that cannot be loaded, missing low tables, an occupied stack slice, or fewer pages than a stated bound |
| `ProcessStart.SegmentPages` | kernel/src/main.rs:6266-6272 | the pages of a segment lie inside the area for programs and hold all of it |
| `UserHeap.AlignUp` | runtime/rymos-user/src/lib.rs:305-347 | the least multiple of the alignment that is not below the value |
| `UserHeap.ChunkSuffices` | runtime/rymos-user/src/lib.rs:320-340 | a chunk for size plus alignment has room for the block wherever it starts |
| `UserHeap.AlignFits` | runtime/rymos-user/src/lib.rs:305-347 | rounding an address of any heap window up to an alignment of at most 2^46 stays below 2^64 |
| `UserHeap.AlignWraps` | runtime/rymos-user/src/lib.rs:305-347 | with the next power of two the sum of the code reaches 2^64 from the start of every heap window |
| `UserHeap.BumpAllocator.Alloc` | runtime/rymos-user/src/lib.rs:306-347 | if a multiple of the alignment leaves room in the current chunk, the block is at the least one and no kernel state changes; otherwise it is the first in a new chunk of exactly the pages needed, or null, which only overflow, the limits of the heap or lack of records or pages cause, with chunk and room as they were; blocks are apart from all earlier ones and inside mapped pages; all other processes are spared |
| `UserHeap.BumpAllocator.Refill` | runtime/rymos-user/src/lib.rs:322-345 | a granted chunk always suffices, is the room from then on, and starts at the old end of the heap |
| `UserHeap.FitsIff` | runtime/rymos-user/src/lib.rs:311-320 | there is room exactly if the address rounded up leaves it, which then is the least that does |
| `UserHeap.HeapKept` | runtime/rymos-user/src/lib.rs:306-347 | blocks and chunks of a process stay as they are when others leave its windows alone |
| `UserHeap.BlocksMapped` | runtime/rymos-user/src/lib.rs:306-347 | blocks are apart and every address of a block is mapped |
| `UserSpaces.CallKeeps` | kernel/src/main.rs:5576-5679 | a call that leaves its own process right and spares the others keeps every process right |
| `UserSpaces.Spaces.Start` | kernel/src/main.rs:5339-5386 | the next number, and a running process unless a segment cannot be loaded or fewer than `StartPages` pages are free: low tables are always there and the stack slice always free; every other process keeps what it has |
| `ProcessStacks.NoStackVacant` | kernel/src/main.rs:2911-2920 | where no page of a stack slice is in use, nothing is mapped, so mapping a stack there can only fail for lack of pages |
| `ProcessStart.LowKept` | kernel/src/main.rs:2793-2869 | a call that spares the others leaves the kernel's large page at address 0, and with it the low tables that address spaces are copied from |
| `UserSpaces.Spaces.Exit` | kernel/src/main.rs:3405-3442 | the process is gone and owns nothing, its number is at the end of the queue of stacks unless sixteen are in it, every other process keeps what it has |
| `UserSpaces.Spaces.ReclaimStacks` | kernel/src/main.rs:3279-3288 | the queue is emptied and of every stack in it nothing is left, each page returned once; every running process keeps what it has |
| `UserSpaces.Spaces.Serve` | kernel/src/main.rs:5339-5679 | any starts, memory calls, allocations, exits and reclaims of any processes in any order keep the whole invariant; afterwards each process that is still there has the same image and stack pages, all its guards and all its blocks, and no number was reused |
| `UserSpaces.Spaces.RunningHas` | kernel/src/main.rs:5576-5679 | seen from its own root, every running process has its image, its stack and its blocks mapped and its guard pages unmapped |
| `UserSpaces.Spaces.ImagesApart` | kernel/src/main.rs:2728-2743 | no page of one process's image is a page of another one's |
| `Scheduling.FreeSlot` | kernel/src/main.rs:1981-2011 | the first empty slot, and only without one the first whose process ended and was reported |
| `Scheduling.NextReady` | kernel/src/main.rs:3323-3333 | the first ready slot, the console exactly when none is ready |
| `Scheduling.WaitsForLarger` | kernel/src/main.rs:5462-5543 | a blocked process waits for a live one with a larger number |
| `Scheduling.DeadlockFree` | kernel/src/main.rs:3323-3376 | if some process is blocked, some process is ready or running |
| `Scheduling.NumbersDiffer` | kernel/src/main.rs:1928-1961 | processes that have not ended have different numbers |
| `Scheduling.SpawnKeeps` | kernel/src/main.rs:1922-1962 | spawning keeps the invariant |
| `Scheduling.ExitKeeps` | kernel/src/main.rs:3367-3375 | exiting keeps it, and falls back to the console only when nobody is blocked |
| `Scheduling.TickKeeps` | kernel/src/main.rs:7207-7222 | a timer tick in program code keeps it |
| `Scheduling.WaitKeeps` | kernel/src/main.rs:5514-5527 | a round of wait keeps it, and reports that child or blocks and lets a process, never the console, run |
| `Scheduling.WaitAnyKeeps` | kernel/src/main.rs:5532-5543 | a round of waiting for any child keeps the invariant; when it reports, blocks or goes on is `WaitAnyOutcome` |
| `Scheduling.CollectKeeps` | kernel/src/main.rs:2205-2256 | collecting at the console keeps the invariant: no process is inside a wait while the console runs |
| `Scheduling.BlockThenRun` | kernel/src/main.rs:5462-5472 | after a task blocks a process is chosen, not the console |
| `SchedulerSteps.WaitAnyOutcome` | kernel/src/main.rs:5532-5543 | a report comes if and only if some child has ended unreported, and is pid, state and code of the first such slot; the caller blocks if and only if there is none and a live child exists, and goes on without a report if and only if there is neither |
| `SchedulerSteps.WaitAnyDelivers` | kernel/src/main.rs:5532-5543 | with exactly one ended child its status comes in the next round, whatever other children do |
| `SchedulerSteps.AnyWokenByExit` | kernel/src/main.rs:3340-3359 | a process that waits for any child is woken by the next exit and by no other step |
| `SchedulerSteps.SpawnOutcome` | kernel/src/main.rs:1922-1962 | spawning takes no slot of a live or unreported process; with a slot there is a new child of the caller, ready or failed, without one only the number is used up |
| `SchedulerSteps.MissingOutcome` | kernel/src/main.rs:6122-6183 | running a program that does not exist uses up a number and nothing else |
| `SchedulerSteps.ExitOutcome` | kernel/src/main.rs:3367-3375 | an exit keeps the code, makes exactly the waiters ready, and the first ready slot runs next |
| `SchedulerSteps.TickOutcome` | kernel/src/main.rs:7207-7222 | a tick hands over to the first ready slot and makes the interrupted one ready; without one nothing happens |
| `SchedulerSteps.CollectOutcome` | kernel/src/main.rs:2205-2256 | the console collects exactly an ended, unreported process of that number, and never blocks |
| `SchedulerRuns.StepKeeps` | kernel/src/main.rs:3227-3376 | every step whose wait names an own child keeps the invariant |
| `SchedulerRuns.RunKeeps` | kernel/src/main.rs:3227-3376 | so does every run of such steps |
| `SchedulerRuns.AlwaysSomeoneRuns` | kernel/src/main.rs:3323-3376 | in every state reachable from boot by such steps a blocked process means one that can run |
| `SchedulerRuns.EndedStays` | kernel/src/main.rs:2003-2033 | until reported, an ended process keeps its slot, state and code through every step |
| `SchedulerRuns.ReportedOnce` | kernel/src/main.rs:2238-2279 | no process is reported twice in any run |
| `SchedulerRuns.NeverAgain` | kernel/src/main.rs:2238-2279 | a number that was reported never appears in a later report |
| `SchedulerRuns.StatusKept` | kernel/src/main.rs:2238-2279 | a report says exactly the state and code the process ended with |
| `SchedulerRuns.ExitDelivered` | kernel/src/main.rs:3405-3452 | end to end: after an exit with a code, whatever runs, the process is reported at most once, with that code, and is still there if it was not |
| `SchedulerRuns.WaitDelivers` | kernel/src/main.rs:5514-5527 | a parent waiting for an ended child gets its status in the next round |
| `SchedulerRuns.SpentWaitHangs` | kernel/src/main.rs:5514-5527 | waiting for a number that was already reported: if its slot is still there a process stays blocked, and the console stays in its wait, in every run that follows, otherwise the caller goes on at once; no later report has the number |
| `SchedulerRuns.ConsolePollsForever` | kernel/src/main.rs:5514-5527 | once no process is ready, every run of the console's polls for a reported number leaves the whole state as it is |
| `SchedulerRuns.SameSlot` | kernel/src/main.rs:6122-6183 | in every run, a number is in no other slot than the one it was started in |
| `SchedulerRuns.MarkAfterReport` | kernel/src/main.rs:6165-6177 | after a report the console's mark of its program's slot changes nothing |
| `SchedulerRuns.MarkOnAnother` | kernel/src/main.rs:6165-6177 | after a wait that found the number gone the mark changes the table if and only if the slot's process was not reported, keeps the table in order if and only if that process is not alive, and takes the report of an ended one for good |
| `SchedulerRuns.MarkTakesReport` | kernel/src/main.rs:6165-6177 | a run from the start that reaches this: an exit code that could be collected before the mark and cannot after it |
| `SchedulerRuns.WaitOutcome` | kernel/src/main.rs:5514-5527 | a round of wait for any number at all: by any caller: reports exactly an ended and unreported process, returns exactly without a slot of that number, stays in the wait exactly for one that is alive or was reported, a process blocked and the console polling |
| `SchedulerRuns.WokenByExit` | kernel/src/main.rs:3340-3376 | a process blocked on a number is woken by the exit of that process and by no other step |
| `SchedulerRuns.BlockedUntilExit` | kernel/src/main.rs:3340-3376 | over every run without that exit it stays blocked in the same wait and never runs |
| `SchedulerRuns.SpentNeverExits` | kernel/src/main.rs:2238-2256 | a process that was reported exits in no later run |
| `SchedulerRuns.SelfWaitHangs` | kernel/src/main.rs:5514-5527 | a process that waits for its own number is blocked in every run that follows |
| `SchedulerRuns.SlotHeldIff` | kernel/src/main.rs:1981-2011 | in every run the slot of an ended process keeps it if and only if no wait of the run reports it |
| `SchedulerRuns.SpawnFailsIff` | kernel/src/main.rs:1981-2011 | a spawn gives no number if and only if the program could not be prepared or every slot holds a process that is alive or unreported |
| `SchedulerRuns.TableStaysFull` | kernel/src/main.rs:1981-2011 | a table full of ended processes stays full, and spawning fails, in every run that reports nothing |
| `SchedulerRuns.CollectFreesSlot` | kernel/src/main.rs:2205-2256 | collecting one at the console reports it and lets the next program start |
| `SchedulerRuns.FailedRunsFillTable` | kernel/src/main.rs:6122-6183 | sixteen top-level runs whose program cannot be prepared fill the table: no program starts in any later run that reports none of them, and collecting any one at the console makes room |
| `Scheduler.Kernel.PickNextReady` | kernel/src/main.rs:3323-3333 | finds that slot |
| `Scheduler.Kernel.SwitchTo` | kernel/src/main.rs:3227-3254 | changes the states of the two tasks and the current slot as the step says, nothing else |
| `Scheduler.Kernel.WakeWaitersFor` | kernel/src/main.rs:3340-3359 | exactly the waiters for that process become ready |
| `Scheduler.Kernel.FindSlot` | kernel/src/main.rs:1981-2011 | finds the slot for a new process |
| `Scheduler.Kernel.Spawn` | kernel/src/main.rs:1922-1962 | is the spawn step |
| `Scheduler.Kernel.SpawnMissing` | kernel/src/main.rs:6122-6183 | is the step for a program that does not exist |
| `Scheduler.Kernel.ExitAndYield` | kernel/src/main.rs:3367-3375 | is the exit step |
| `Scheduler.Kernel.MaybePreempt` | kernel/src/main.rs:7207-7222 | is the tick step |
| `Scheduler.Kernel.BlockCurrentOn` | kernel/src/main.rs:5462-5472 | is the block step |
| `Scheduler.Kernel.WaitByPid` | kernel/src/main.rs:2238-2256 | is the step that collects: the first ended, unreported process with the number, if any |
| `Scheduler.Kernel.WaitAnyChild` | kernel/src/main.rs:2258-2279 | reaps the first ended, unreported child, if any |
| `Scheduler.Kernel.WaitRound` | kernel/src/main.rs:5514-5527 | is one round of wait |
| `Scheduler.Kernel.WaitAnyRound` | kernel/src/main.rs:5532-5543 | is one round of waiting for any child, as `WaitAnyOutcome` describes it |
| `Pipes.PushAppends` | kernel/src/main.rs:4800-4815 | written bytes come after everything the pipe held |
| `Pipes.PopTakesFront` | kernel/src/main.rs:4733-4755 | what is read was in front and the rest stays, also when the offsets start over |
| `Pipes.NewPipeAgrees` | kernel/src/main.rs:5857-5917 | a new pipe keeps the two tables in agreement |
| `Pipes.CloseKeepsAgree` | kernel/src/main.rs:4869-4912 | closing an end keeps them in agreement; the pipe is freed exactly when both ends are closed |
| `Pipes.PipeTable.MakePipe` | kernel/src/main.rs:5857-5917 | fails exactly without a free pipe or two closed descriptors; otherwise takes the first two closed descriptors and an empty pipe, and nothing else changes |
| `Pipes.PipeTable.Read` | kernel/src/main.rs:4711-4778 | the oldest held bytes, as many as fit, and exactly those leave the pipe |
| `Pipes.PipeTable.TakeFrom` | kernel/src/main.rs:4733-4755 | the pipe's side of a read, which every byte leaves exactly once |
| `Pipes.PipeTable.Write` | kernel/src/main.rs:4780-4838 | as much as there is room for is appended; refused exactly without a reader or with a full buffer |
| `Pipes.PipeTable.Close` | kernel/src/main.rs:4869-4912 | one descriptor is cleared and its end closed; the pipe is blank once both are |
| `Pipes.PipeTable.CloseAll` | kernel/src/main.rs:6025-6038 | afterwards no descriptor is open and no pipe in use |
| `Pipes.PipeTable.Fifo` | kernel/src/main.rs:4733-4815 | in every reachable state what was read from a pipe is a prefix of what it accepted, and the rest is what it holds |
| `Environment.OverlayLookup` | kernel/src/main.rs:5193-5231 | setting or deleting one key changes the lookup of that key only |
| `Environment.ProcessEnv.Get` | kernel/src/main.rs:5067-5089 | the overlay's value, else the built-in one |
| `Environment.ProcessEnv.SetOverlay` | kernel/src/main.rs:5193-5231 | the key's own slot or the first unused one is rewritten; fails exactly if sizes or slots do not allow it |
| `Environment.ApplyUndo` | runtime/rymos-user/src/lib.rs:1356-1384 | an applied override with its record appended can still be undone to the start |
| `Environment.RestoreUndo` | runtime/rymos-user/src/lib.rs:1386-1394 | undoing the last record cannot fail and leaves a state that leads back |
| `Environment.ProcessEnv.RestoreAll` | runtime/rymos-user/src/lib.rs:1386-1394 | every lookup is as it was before the overrides, also with repeated keys |
| `Environment.ProcessEnv.ApplyAll` | runtime/rymos-user/src/lib.rs:1356-1384 | succeeds if and only if each override applies after those before it; then every override shows, all other keys read as before, and it can be undone; on failure every lookup is as before |
| `Environment.AllApplyIff` | runtime/rymos-user/src/lib.rs:1356-1384 | that is the case if and only if all are proper and the keys without a slot are no more than the unused slots |
| `Environment.RoundTripUsesSlot` | kernel/src/main.rs:5193-5231 | override and restore bring every lookup back; they use up one more slot if and only if the key had none |
| `Environment.AppliesIff` | kernel/src/main.rs:5193-5231 | an override is refused if and only if it is improper or its key has no slot and all 64 are taken |
| `Environment.RoundTripsUseSlots` | kernel/src/main.rs:5193-5231 | after any number of round trips every lookup is as before, and while there is room every key that came by has a slot |
| `Environment.RoundTripsExhaust` | kernel/src/main.rs:5193-5231 | after as many round trips with new keys as slots were left, every override of yet another key is refused, though no lookup has changed |
| `Command.Caller.Dup2` | kernel/src/main.rs:5919-5940 | succeeds exactly for a standard target and the same or an open descriptor |
| `Command.Caller.ChangeDir` | kernel/src/main.rs:5803-5850 | the kernel's branches on paths, with the resolved name looked up among the directories on the disk |
| `Command.Caller.IsDirName` | kernel/src/main.rs:5831-5838 | the lookup finds a name exactly if the disk is formatted and some entry is a directory of that name |
| `Command.Caller.RestoreDir` | runtime/rymos-user/src/lib.rs:1345-1349 | the caller is back exactly if that is still a directory |
| `WorkingDir.ResolvePath` | kernel/src/main.rs:3810-3821 | a prefixed name starts at the top, another one at the current directory, which has to be on the file system |
| `WorkingDir.ChdirKeeps` | kernel/src/main.rs:5803-5850 | the current directory is always the boot volume, the top, or a clean name on the file system |
| `WorkingDir.ChdirBack` | kernel/src/main.rs:5803-5850 | given as a path, it leads from anywhere back to itself if and only if it still is a directory |
| `WorkingDir.ChdirDown` | kernel/src/main.rs:5803-5850 | a name leads one level down if and only if the longer path is at most 96 bytes and a directory |
| `WorkingDir.ChdirUp` | kernel/src/main.rs:5803-5850 | .. leads to the parent if that is a directory, and is refused in a directory at the top |
| `Command.Caller.RestoreStdio` | runtime/rymos-user/src/lib.rs:1424-1428 | each standard descriptor whose saved target is still open is put back, the others stay |
| `Command.Caller.CloseMany` | runtime/rymos-user/src/lib.rs:1430-1436 | exactly the listed descriptors are closed |
| `Command.Caller.ReadAll` | runtime/rymos-user/src/lib.rs:1396-1412 | everything the pipe holds, after which the pipe is drained |
| `Command.Caller.Feed` | runtime/rymos-user/src/lib.rs:1046 | as much of the input as a pipe holds is in it |
| `Command.FedHolds` | runtime/rymos-user/src/lib.rs:1046 | what a pipe with the input in it holds is the front of the input, as much as fits |
| `Command.AllBack` | runtime/rymos-user/src/lib.rs:1424-1428 | a caller whose standard descriptors name open things gets all of them back |
| `Command.Caller.RunRedirected` | runtime/rymos-user/src/lib.rs:1047-1140 | the child starts with the fed input pipe and the two output pipes as its standard descriptors and with the caller's directory and environment (`start`, which joins `launches`), the calls run from there, the two results are what the output and error pipes hold at the end, and everything is put back, whatever calls on files, pipes and names others made meanwhile but closing what was open |
| `Command.Caller.RunOutput` | runtime/rymos-user/src/lib.rs:975-1140 | succeeds if and only if the directory can be entered, the overrides apply, three pipes and six descriptors are unused, and spawn and wait succeed; one child is started exactly if all but the wait do, in that directory, with the overrides showing, and the calls run from its start; on every return path the environment reads as before, standard descriptors are back, every descriptor it opened is closed and those open before are still the same ones, though others may have moved their positions; without a child nothing moved either; the current directory is back unless it is no directory on the disk any more |
| `Command.Caller.OpenThree` | runtime/rymos-user/src/lib.rs:1011-1045 | all three pipes are there if and only if three were unused and six descriptors closed; their read ends are different |
| `Command.Caller.RunStatus` | runtime/rymos-user/src/lib.rs:1142-1329 | the same with files as targets, and with success if and only if the overrides apply, the files can be made one after the other and descriptors and a pipe for the input suffice: the child starts with the fed pipe as standard input and with handles of the files at the given paths, new or emptied, exactly where they were asked for (`start`), keeps them, and may write to them |
| `Command.TargetKept` | runtime/rymos-user/src/lib.rs:1239-1272 | opening the file for standard errors leaves the one for standard output what it is, also when both are the same file |
| `Command.OpenEmpties` | runtime/rymos-user/src/lib.rs:1575-1577 | a file opened this way is empty, whatever it held |
| `FatImage.CalculateLayout` | scripts/make_fat32.py:51-67 | the loop settles after at most one enlargement with a table that covers every cluster; fails exactly when the clusters are too few for FAT32 or for the files |
| `FatImage.NeedShrinks` | scripts/make_fat32.py:51-67 | a larger table needs no larger table |
| `FatImage.BuildFat` | scripts/make_fat32.py:131-139 | three chains one after the other from cluster 5, reserved entries set, all else free |
| `FatImage.FollowChain` | scripts/make_fat32.py:137-139 | following a chain from its first cluster gives its clusters in order |
| `FatImage.ChainsApart` | scripts/make_fat32.py:123-139 | the chains share no cluster with each other or with clusters 2 to 4, and what is in none is free |
| `FatImage.WriteCluster` | scripts/make_fat32.py:40-48 | the cluster is the data with zeros behind it and nothing outside it changes |
| `FatImage.EntryBack` | scripts/make_fat32.py:27-37 | name, attribute, first cluster and size are read back from a directory entry |
| `FatImage.DirFound` | scripts/make_fat32.py:27-37 | in a directory of three entries with different names a search by name and attribute finds each, with its cluster, and the directory ends there |
| `FatImage.NamesSpelled` | scripts/make_fat32.py:151-165 | the eleven-byte names are the padded short names they stand for |
| `FatImage.StoreFile` | scripts/make_fat32.py:169-177 | the payload lies along its clusters and nothing else changes |
| `FatImage.BuildImage` | scripts/make_fat32.py:70-177 | for non-empty payloads that fit: equal tables, and following EFI, BOOT, BOOTX64.EFI, KERNEL.ELF and INITRD.RFS by name and attribute from the root, with . and .. on the way, gives each payload whole along its chain; fails exactly otherwise |
| `CivilDays.NextIsOneMore` | kernel/src/main.rs:3086-3094 | the count grows by exactly one from each valid date to the next, in all years |
| `CivilDays.CountingAgrees` | kernel/src/main.rs:3086-3094 | counting n days from 1970-01-01, forwards or backwards, and converting gives n |
| `CivilDays.EveryDateCounted` | kernel/src/main.rs:3086-3094 | every valid date is reached by counting its number of days |
| `CivilDays.MarchToMarch` | kernel/src/main.rs:3086-3094 | a year from March to March has 365 days, or 366 over a leap February |
| `PfsHost.MakeParents` | scripts/pfs_put.py:63-68 | the parent loop adds exactly the missing directories, or fails exactly when one cannot be added |
| `PfsHost.FillSlot` | scripts/pfs_put.py:117-123 | allocation, data and entry of a new file in a chosen slot, all or nothing |
| `PfsHost.PutFile` | scripts/pfs_put.py:63-71 | parents, then the file: exact success condition and resulting file map |
| `PfsTable.FindLastSlash` | kernel/src/main.rs:3925-3934 | the position of the last slash, none exactly without one |
| `PfsPaths.WalkPath` | kernel/src/main.rs:3830-3844 | the second loop is the fold with . and .., to which `UpCancels`, `HereCancels` and `UpIsParent` give its meaning |
| `PfsPaths.PushBase` | kernel/src/main.rs:3824-3829 | the first loop pushes the base's components as they are |
| `PfsAlloc.AppendRun` | kernel/src/main.rs:1768-1778 | the run is merged into the last extent if it follows it, else becomes a new one, refused at four |
| `PfsDisk.Pfs.WriteThrough` | kernel/src/main.rs:4822-4835 | the disk side of a handle write, data first and then the size |
| `PfsDisk.OpenIn` | kernel/src/main.rs:4644-4685 | the header edit of open is the open step on the decoded table |
| `PfsDisk.MkdirIn` | kernel/src/main.rs:5039-5063 | the header edit of mkdir is the mkdir step on the decoded table |
| `Descriptors.MovedKeeps` | kernel/src/main.rs:4711-4867 | a descriptor whose position or remembered length moves leaves pipes and their ends in agreement, and stays the same descriptor |
| `Descriptors.TakenKeeps` | kernel/src/main.rs:4686-4706 | a file in a closed slot leaves pipes and their ends in agreement and all open descriptors the same |
| `Descriptors.OpenFile` | kernel/src/main.rs:4624-4709 | open on the shared table: the file system's step, the handle for that entry in the first closed slot, pipes and other descriptors as before |
| `Descriptors.OpenBoot` | kernel/src/main.rs:4597-4618 | a boot file takes the first closed slot, or there is none |
| `Descriptors.Read` | kernel/src/main.rs:4711-4778 | for each kind of descriptor the bytes that come out and exactly what moves; every descriptor stays the same one |
| `Descriptors.Write` | kernel/src/main.rs:4780-4838 | for each kind of descriptor when it succeeds and exactly what changes on disk, in the pipe and in the handle |
| `Descriptors.Seek` | kernel/src/main.rs:4840-4867 | any position for an open descriptor but past the end of a boot file; nothing else changes |
| `Descriptors.SeekThenRead` | kernel/src/main.rs:4711-4867 | a read after a seek gives what the file has at that position |
| `Descriptors.BootSeekThenRead` | kernel/src/main.rs:4597-4867 | and of a boot file as many bytes as remain there |
| `Descriptors.OpenPipe` | kernel/src/main.rs:5857-5917 | a new pipe in the first two closed slots of the shared table, if and only if a pipe is unused and two descriptors are closed; files and handles are left alone |
| `Descriptors.Close` | kernel/src/main.rs:4869-4912 | exactly the named open descriptor is cleared, and its end of a pipe closed |
| `Descriptors.OthersRun` | kernel/src/main.rs:4585-4912 | any calls of other processes, none of which closes a descriptor open before, are made one after the other; the shared tables are in order after each, and every descriptor open before is the same one |
| `Descriptors.Do` | kernel/src/main.rs:4585-4912 | one call of another process makes of descriptors, pipes and disk what that call does and nothing else |
| `Pipes.PipeTable.Occupy` | kernel/src/main.rs:4686-4706 | a file handle in a closed slot leaves pipes and their ends in agreement |
| `Command.Caller.OpenPipe` | kernel/src/main.rs:5857-5917 | succeeds if and only if a pipe is unused and two descriptors are closed; then the ends of a new empty pipe; earlier pipes and descriptors are as before |
| `Command.Caller.PutBack` | runtime/rymos-user/src/lib.rs:1424-1428 | standard descriptors and environment are put back |
| `Command.Caller.CloseOurs` | runtime/rymos-user/src/lib.rs:1430-1436 | what the call opened is closed, all else as it was |
| `Command.Caller.OpenInput` | runtime/rymos-user/src/lib.rs:1176-1203 | the fed input pipe becomes standard input, or nothing changed |
| `Command.Caller.OpenTarget` | runtime/rymos-user/src/lib.rs:1205-1272 | succeeds if and only if the file can be created or emptied and a descriptor is closed; its handle at its own entry becomes the standard target, or no descriptor changed |
| `Command.Caller.OpenTargets` | runtime/rymos-user/src/lib.rs:1205-1272 | both files are open where asked for, if and only if each can be made after the one before and descriptors suffice |
| `Command.TargetOutcome` | runtime/rymos-user/src/lib.rs:1205-1272 | making a target succeeds exactly if the open on the file map does and a descriptor is closed, and leaves that map |
| `Command.Caller.Finish` | runtime/rymos-user/src/lib.rs:1273-1328 | the child runs, once and from the state at hand, if all went well, and everything is put back |
| `AddressSpaces.Vm.MapFreshPage` | kernel/src/main.rs:2667-2682 | one page of a run is allocated and mapped, or given back; no page is lost |
| `AddressSpaces.Vm.ReleasePage` | kernel/src/main.rs:2684-2696 | one page is unmapped and returned |
| `ProcessMemory.ProcessMemory.MapTracked` | kernel/src/main.rs:5601-5612 | a run is recorded and mapped, or neither; fails only if all records are used or pages are short, with the records as they were |
| `ProcessExit.ReclaimMapping` | kernel/src/main.rs:2075-2095 | one recorded run is unmapped, returned and struck off |
| `ImagePages.MapImagePage` | kernel/src/main.rs:2728-2743 | one page of the image is mapped in this root only |

## Left out

- Device errors: sector reads and writes always succeed, and the header write is one step, so torn headers and recovery are not modelled.
- Clocks are an argument `now`; the console, BootFS files, standard streams that are not redirected, and the boot-time page-table clone are not part of this model.
- PfsFiles.StepRefinesMap: time stamps of modification are not part of the map; creation time and mode are.
- PfsDisk.Pfs.ReadFd: file descriptors are addressed by table slot after resolution.
- Descriptors.Read: the bytes of a boot file are not modelled, only how many are read.
- PfsNamespace.ListEntry: the name copied to the caller is not cut to the caller's buffer.
- PfsHost.Upload: without the format option; the image file has its full length already.
- AddressSpaces.Vm.MapPage: flags are always present and writable, as every caller passes them, and the page is one just allocated; TLB invalidation is not modelled.
- UserHeap.BumpAllocator.Alloc: alignments up to 2^46, beyond which the sums of the code can wrap round unnoticed; sizes above zero as the allocator interface demands.
- UserSpaces.Spaces.Serve: the process table's sixteen slots are in `SchedulerRuns`; here any number of processes may run. Bytes inside pages are not part of the paging model.
- ProcessStart.LoadSegments: the checks of the file's own headers are one flag a segment, addresses and sizes add up without wrapping round, and the bytes copied are not modelled.
- Scheduling.NextReady: the choice is by lowest slot; fairness is not promised by the code and not claimed.
- Scheduler.Kernel.SwitchTo: a context switch changes the current task; registers, stacks and floating-point state are not modelled.
- Command.Caller.RunOutput: the child and other processes are known only through their calls, which are an argument, and spawning and waiting succeed or fail as arguments say.
- FatImage.BuildImage: boot and information sectors are not modelled, they lie before the first table; images of 0x0FFFFFF8 sectors or more are excluded, as their entries would not fit.
- Environment.ProcessEnv.SetOverlay: setting an empty value is refused by the argument check of the kernel call before this point.
- Shell commands, keyboard, framebuffer, PCI, RamFs, the bootloader and the test programs: input and output, or small tables with easy properties.
