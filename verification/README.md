# xv6 kernel layers, A* search and the Viterbi tagger

A Dafny model of the parts of this repository that carry the most state: the xv6 write-ahead log over its
buffer cache, the file layout layer, the user-level allocator, two-level page tables, the process table and
the pipe (the copy in `CS236/Lab04&05-xv6-proc`), the missionaries-and-cannibals A* search
(`CS240/Lab2/Lab2_Solution.py`), and the part-of-speech tagger (`CS240/Lab9+10Solution/HMM.py`).

`dafny verify dfyconfig.toml` checks everything. Nothing here runs the original programs.

## How the files fit together

**Log and buffer cache.** There are two views, and lemmas between them.

- `LogSystem` is the concurrent one: every critical section of log.c and bio.c is one atomic step, any number
  of processes interleave, and `Crash` is enabled in every state, so also between any two block writes of
  commit and of recovery. log_write is two steps, since it tests before it locks. Its state keeps, beside the
  real fields, what an uncached store would hold and the history of begin, write and end events.
  `LogInvariant` proves the invariant, `LogTheorems` states what holds of every run, `LogProgress` which
  commits and recoveries can be completed; `LogGuard` constructs the runs that reach log_write's and bget's
  panics or get past the tests, and `LogOverrun` says for which sizes of the log area that does harm.
- `BufferCache` and `Log` are classes in the form of bio.c and log.c: a doubly linked list of buffers through a
  sentinel, and the loops of write_log, install_trans, read_head and write_head over it. The disk records every
  state it has been in, so "a crash anywhere in commit" is a statement about each element of that trace.
- `CacheSpec` is the cache as a value (a sequence of entries in list order). The class methods are proved equal
  to it, and `CacheRefinement` proves it to implement the buffer steps of `LogSystem`.

**Files.** `FileLayout` holds the ownership invariant: a map from block to the one place (inode, index) that
uses it, covering direct blocks, indirect tables and their entries. `FileContents` says what bytes a layout
shows, `InodeCodec` how inodes lie on disk, `FileSystem` is fs.c as a class over the block store that log and
cache present, and `OpenFile` is file.c with its transaction brackets. `Reservation` counts what a write logs,
exactly, in the terms of `Writes`; `WorstWrite` says on which disks that can be too much, and `WorstDisk` builds
them. `CrashSafety` puts the files over the log: what recovery leaves behind can be mounted, with the files as
whole calls left them.

**The rest.** `FreeList` and `Umalloc` are umalloc.c: the list as a value with its invariant, and the methods that
splice it. `PageTables` and `Vm` are vm.c and kalloc.c over physical pages. `ProcTable` is proc.c as a transition
system at the granularity of ptable.lock and `ProcScans` the loops over the table that make its steps; `Pipe` is
pipe.c. `Crossing` and `AStar` are the search, and `Puzzle` says when it succeeds; `Viterbi` and `Emissions` are the
tagger, and `Tagger` joins its two halves.

## What the proofs found

- log_write panics when `log.lh.n >= log.size - 1`, and mkfs makes the log LOGSIZE blocks. With a log that small
  operations that keep within MAXOPBLOCKS do reach the panic (`LogGuard.SmallLogPanics`); with a larger one they
  never do for a block not yet in the log (`LogTheorems.FreshBlockFits`).
- log_write makes its size tests before it looks for the block in the log, so a block it would absorb panics
  exactly when the log holds LOGSIZE blocks, or all but one of its area or more (`LogTheorems.AbsorptionPanics`),
  and both are reached (`LogGuard.FullLogPanicsOnAbsorption`).
- It also makes them before it takes log.lock. Two operations within their budgets that have both passed them fill
  a log area of LOGSIZE blocks or fewer beyond what they allow (`LogGuard.ReachOverrun`); there is room for what is
  logged, always, if and only if the area has more than LOGSIZE blocks, or one (`LogOverrun.LogHasRoom`). With fewer
  than LOGSIZE the commit then copies a block over the one behind the area before it has written the header
  (`LogOverrun.SmallLogLosesBlock`). With LOGSIZE, mkfs's size, it cannot, for lack of buffers, so that the disk
  means what was committed if and only if the area has LOGSIZE blocks or more, or one (`LogOverrun.DiskSafe`).
- bget panics exactly when the blocks that are pinned or referenced are as many as the buffers
  (`LogTheorems.BgetFindsBuffer`). There are as many buffers as log slots, so 29 logged blocks and one held by a
  process leave that process no buffer for another (`LogGuard.BgetPanics`), and a commit can be completed if and only
  if fewer blocks than buffers are logged (`LogProgress.CommitCompletes`). A log with as many is reached with mkfs's
  log area and with every larger one (`LogGuard.MkfsLogSticks`, `LogGuard.LargeLogSticks`), so that no size of the
  area is free of panics.
- filewrite's chunk always fits (`OpenFile.ChunkFits`). The bound that says so would let one byte more through on a
  disk with at most four blocks of the free map for its data (`OpenFile.ChunkIsTight`), as on the small disk mkfs
  makes. Whether writei can really log too much with that byte depends on the disk: if and only if the data blocks are
  marked in five blocks of the free map or more, and those before the first that the fifth marks, four of them aside,
  fit into the files there can be inodes for, twelve in one and 141 in each other (`WorstWrite.OneByteMore`,
  `WorstWrite.ChunkAndOne`; `WorstDisk.Wide` is the condition).
- A write that runs past the largest file writes its leading whole chunks, moves the offset, and still returns -1
  (`OpenFile.File.Filewrite`).
- malloc's rounding wraps for the seven largest requests, which then get one unit (`Umalloc.LargeEnough`). For other
  requests above 2^31 - 16 bytes the byte count that morecore passes to sbrk is not the block's size but negative, or
  zero, so that sbrk can succeed without giving the block (`Umalloc.MorecoreGetsBlock`).
- kill with the pid of a process reaches that process (`ProcTable.KillReaches`). With pid 0, or the pid of a fork that
  failed, it marks an UNUSED slot, and allocproc does not reset the mark, so a later child is born killed
  (`ProcTable.KillHits`, `ProcTable.KillZero`).
- pipewrite returns without a wakeup when its process is killed and the pipe is full, also when it has itself just
  filled it. A reader asleep on the empty pipe then sleeps on, and that is the only way for a wakeup to be lost
  (`Pipe.NoLostWakeups`, `Pipe.ForgottenReader`).
- make_word_given_tag counts the first occurrence of every word for the last tag of the tag list
  (`Emissions.CountsRight`, `Emissions.CountsWrong`).
- get_POS_tags gives one tag for the empty sentence (`Viterbi.GetPosTags`).
- The searches find a plan exactly when there are more missionaries than cannibals, or one, two or three of each
  (`Puzzle.Solvable`). No missionaries and no cannibals pass check_valid, but there is no plan: nobody can row.

## Model

| member | source | states |
|---|---|---|
| LogFormat.HeaderRoundTrip | CS236/Lab04&05-xv6-proc/log.c:84-113 | the header block that write_head makes has the count in its first word and the block numbers in the next ones, and reading it gives the list back, for every list that fits |
| LogInvariant.InitInv | CS236/Lab04&05-xv6-proc/log.c:53-66 | a machine that starts initlog on any disk with a well-formed log, or has done so on one with an empty log, meets the invariant of log, cache and disk |
| LogInvariant.BeginOpInv | CS236/Lab04&05-xv6-proc/log.c:124-141 | admitting an operation keeps the invariant, the reservation of log space included |
| LogInvariant.EndOpInv | CS236/Lab04&05-xv6-proc/log.c:143-174 | ending an operation keeps the invariant, that a log nobody is using is empty or being committed included |
| LogInvariant.GetInv | CS236/Lab04&05-xv6-proc/bio.c:58-93 | finding or recycling a buffer keeps it: still at most one line a block, and no logged block has lost its line |
| LogInvariant.BufferStepInv | CS236/Lab04&05-xv6-proc/bio.c:95-141 | locking, filling from disk, changing and releasing a buffer keep it, and so do log_write's tests |
| LogInvariant.AppendInv | CS236/Lab04&05-xv6-proc/log.c:223-232 | log_write's critical section keeps it, absorbed or not, whenever the tests were made, as long as the log then fits its area or is full |
| LogInvariant.StepFits | CS236/Lab04&05-xv6-proc/log.c:218-232 | in a log area of LOGSIZE blocks or more, or one, that is always so: what others append between the tests and the append is paid for by the reservation |
| LogInvariant.CopyToLogInv | CS236/Lab04&05-xv6-proc/log.c:176-190 | one round of write_log keeps it |
| LogInvariant.WriteHeadInv | CS236/Lab04&05-xv6-proc/log.c:98-113 | the header write, the commit point, keeps it: what the disk means becomes the whole history |
| LogInvariant.InstallInv | CS236/Lab04&05-xv6-proc/log.c:68-82 | one round of install_trans, at commit or in recovery, keeps it |
| LogInvariant.ClearHeadInv | CS236/Lab04&05-xv6-proc/log.c:192-202 | clearing the header keeps it: by then every home block is in place |
| LogInvariant.CrashInv | CS236/Lab04&05-xv6-proc/log.c:115-122 | a crash in any state leaves a disk that recovery can start from, meaning the committed history |
| LogInvariant.ReadLogHeadInv | CS236/Lab04&05-xv6-proc/log.c:84-96 | recovery's reading of the header keeps the invariant |
| LogInvariant.FinishInv | CS236/Lab04&05-xv6-proc/log.c:143-174 | the end of a commit and the end of recovery keep it |
| LogInvariant.OpsStep | CS236/Lab04&05-xv6-proc/log.c:124-232 | whatever the size of the log area, every step keeps who is in an operation, the reservation of log space, and that committed history is of whole operations |
| LogInvariant.HeldStep | CS236/Lab04&05-xv6-proc/log.c:218-232 | and that a sleep-lock is held by a user of the buffer, and whoever has passed the tests still holds its block and can append |
| LogInvariant.WritesStep | CS236/Lab04&05-xv6-proc/log.c:192-232 | every step keeps that whatever has been written and not committed is in the log |
| LogInvariant.StepInv | CS236/Lab04&05-xv6-proc/log.c:124-233 | every step of every process, crash included, keeps the whole invariant, an append as long as the log fits its area or is full |
| LogTheorems.RunOps | CS236/Lab04&05-xv6-proc/log.c:124-232 | for every size of the log area, in every state of every run the operations, reservations and locks are in order |
| LogTheorems.RunInv | CS236/Lab04&05-xv6-proc/log.c:68-233 | with a log area of LOGSIZE blocks or more, or one, the whole invariant holds in every state of every run |
| LogTheorems.BreadIsTransparent | CS236/Lab04&05-xv6-proc/bio.c:95-106 | in every reachable state, what bread gives for a home block is what an uncached store with all logged writes applied holds, whether the block is cached or has to be read from disk |
| LogTheorems.LoggedAreDirty | CS236/Lab04&05-xv6-proc/log.c:213-233 | until install, exactly the logged blocks are dirty, and each of them is cached |
| LogTheorems.LoggedIsNeverRecycled | CS236/Lab04&05-xv6-proc/bio.c:78-92 | bget can never pick a logged block's buffer before it is installed |
| LogTheorems.LogHoldsLatest | CS236/Lab04&05-xv6-proc/log.c:176-190 | when write_log is done, every log block holds the latest logged contents of its home block |
| LogTheorems.GroupCommit | CS236/Lab04&05-xv6-proc/log.c:124-174 | for every size of the log area: committing implies nothing is outstanding, nobody can begin, end, test or append meanwhile, end_op's and log_write's panics on a process inside an operation cannot happen, whoever has passed the tests can append, and what is committed holds only whole operations |
| LogTheorems.CommitAdmits | CS236/Lab04&05-xv6-proc/log.c:129-141 | when a commit ends, whoever waits in begin_op passes its tests, in every reachable state |
| LogTheorems.EndOpCommits | CS236/Lab04&05-xv6-proc/log.c:143-174 | for every size of the log area, in every reachable state: end_op starts a commit if and only if the caller was the only one in an operation, and changes neither log, cache nor disk itself |
| LogTheorems.QuietIsCommitted | CS236/Lab04&05-xv6-proc/log.c:143-202 | for every size of the log area: in every reachable state with nobody in an operation and no commit under way the log is empty, and no write is left uncommitted |
| LogTheorems.QuietIsDurable | CS236/Lab04&05-xv6-proc/log.c:143-202 | then every block on disk holds all the writes of the history |
| LogTheorems.QuietSurvivesCrash | CS236/Lab04&05-xv6-proc/log.c:115-202 | and a crash at that moment loses none of them, however often recovery crashes too |
| LogProgress.LoggedCanBeDurable | CS236/Lab04&05-xv6-proc/log.c:143-202 | from every reachable state in which every change has been logged and the log leaves a buffer over, the operations can end and every write made so far reach its place on disk, without a crash |
| LogTheorems.AdmissionIs | CS236/Lab04&05-xv6-proc/log.c:124-141 | in every reachable state begin_op admits a process if and only if no commit is under way and the blocks logged and MAXOPBLOCKS for everybody inside, the newcomer included, are at most LOGSIZE; so at most three are ever inside |
| LogTheorems.CrashAnywhere | CS236/Lab04&05-xv6-proc/log.c:115-122 | the machine can crash in every reachable state, and then has its disk and nothing else |
| LogTheorems.ReservationHolds | CS236/Lab04&05-xv6-proc/log.c:132 | for every size of the log area, in every reachable state of a running machine the blocks in the log plus all unused budgets are at most LOGSIZE, and the logged numbers are distinct home blocks |
| LogTheorems.FreshBlockFits | CS236/Lab04&05-xv6-proc/log.c:218-221 | a process within its budget never meets the LOGSIZE guard with a new block, and meets the `log.size - 1` guard exactly when the log holds all but one of the area's blocks, or more; never if the area is larger than LOGSIZE |
| LogTheorems.AbsorptionPanics | CS236/Lab04&05-xv6-proc/log.c:218-221 | log_write of a block that is logged already panics if and only if the log holds LOGSIZE blocks, or all but one of its area or more |
| LogTheorems.AppendFits | CS236/Lab04&05-xv6-proc/log.c:218-232 | after every append the log has room for its header and blocks, but for the case of LOGSIZE blocks logged in an area of as many |
| LogTheorems.BgetFindsBuffer | CS236/Lab04&05-xv6-proc/bio.c:78-92 | in every reachable state, recovery included, bget of a block not cached finds a buffer if and only if the blocks that are pinned or referenced are fewer than the buffers |
| LogTheorems.FullLogExhaustsCache | CS236/Lab04&05-xv6-proc/bio.c:78-92 | with a log of NBUF blocks not yet installed bget panics on every block not cached |
| LogTheorems.FullLogNeverCommits | CS236/Lab04&05-xv6-proc/log.c:176-202 | once the log holds NBUF blocks, every run keeps it so and commits nothing, short of a crash |
| LogProgress.CommitCompletes | CS236/Lab04&05-xv6-proc/log.c:176-202 | in every reachable state with a commit under way, whoever holds which buffers, some continuation without a crash completes it if and only if the log holds fewer than NBUF blocks |
| LogProgress.CommitCommits | CS236/Lab04&05-xv6-proc/log.c:192-202 | and then the whole history is committed and the log empty |
| LogProgress.RecoveryCompletes | CS236/Lab04&05-xv6-proc/log.c:115-122 | from every reachable state in which the machine is recovering, some continuation without a crash completes recovery, with the same history |
| LogTheorems.DiskMeansCommitted | CS236/Lab04&05-xv6-proc/log.c:68-96 | at every moment of every run, home blocks overlaid with the log the on-disk header lists are exactly the committed history |
| LogTheorems.BootingRun | CS236/Lab04&05-xv6-proc/log.c:115-122 | through any number of crashes inside recovery the committed history stays as it was at the first crash |
| LogTheorems.RecoveryRestoresCommitted | CS236/Lab04&05-xv6-proc/log.c:115-122 | the first recovery that completes leaves every home block as the committed history says |
| LogTheorems.FirstRecovery | CS236/Lab04&05-xv6-proc/log.c:53-122 | initlog on any disk with a well-formed log: however often it crashes, when it first completes every home block holds what replaying that log gives |
| LogTheorems.CommitRun | CS236/Lab04&05-xv6-proc/log.c:192-202 | during a commit, the whole history is committed exactly from the header write on |
| LogTheorems.CrashAtomicity | CS236/Lab04&05-xv6-proc/log.c:68-202 | crash anywhere in a commit, then any number of times in recovery: the recovery that completes leaves all home blocks new if the header had been written, and all old if not |
| LogGuard.SmallLogPanics | CS236/Lab04&05-xv6-proc/log.c:218-219 | for every log area of at most LOGSIZE blocks a reachable state has a process within its budget, holding a new block, whose log_write panics |
| LogGuard.FullLogPanicsOnAbsorption | CS236/Lab04&05-xv6-proc/log.c:218-230 | for every size of the log area a reachable state has a process inside an operation, holding a block that is logged already and needs no room, whose log_write panics |
| LogGuard.BgetPanics | CS236/Lab04&05-xv6-proc/bio.c:78-92 | for every division of the buffers between blocks logged and blocks that a process inside an operation holds, a reachable state in which that process's next bget panics |
| LogGuard.LargeLogSticks | CS236/Lab04&05-xv6-proc/log.c:176-190 | with a log area larger than LOGSIZE a reachable state has a full log, which is then never committed |
| LogGuard.ReachOverrun | CS236/Lab04&05-xv6-proc/log.c:218-230 | in every log area of two to LOGSIZE blocks, operations within their budgets reach a log with as many blocks as the area, header included: two of them have passed the tests before either appends |
| LogGuard.MkfsLogSticks | CS236/Lab04&05-xv6-proc/log.c:218-230 | with a log area of LOGSIZE blocks, as mkfs makes it, that is a full log, which is never committed |
| LogOverrun.LogHasRoom | CS236/Lab04&05-xv6-proc/log.c:218-230 | fewer blocks are logged than the area has, in every reachable state, if and only if it has more than LOGSIZE blocks, or one |
| LogOverrun.SmallLogLosesBlock | CS236/Lab04&05-xv6-proc/log.c:176-190 | in every log area of two blocks or more but fewer than LOGSIZE, a commit that crashes before the header write, and the recovery after it, leave any contents one likes in the block behind the area, though nothing was ever committed |
| LogOverrun.DiskSafe | CS236/Lab04&05-xv6-proc/log.c:68-232 | the disk means what has been committed in every reachable state if and only if the log area has LOGSIZE blocks or more, or one |
| CacheSpec.BreadAgrees | CS236/Lab04&05-xv6-proc/bio.c:95-106 | bread returns the store's value of the block, locked and referenced, changes one entry and nobody else's view |
| CacheSpec.BreadKeeps | CS236/Lab04&05-xv6-proc/bio.c:95-106 | bread keeps cache and disk coherent and leaves what every other block shows, its dirtiness and its lock |
| CacheSpec.SetDataAgrees | CS236/Lab04&05-xv6-proc/bio.c:95-116 | writing a locked buffer changes the view of its block and of no other |
| CacheSpec.MarkDirtyAgrees | CS236/Lab04&05-xv6-proc/log.c:231 | setting B_DIRTY pins the block and changes no contents |
| CacheSpec.WriteAgrees | CS236/Lab04&05-xv6-proc/bio.c:108-116 | bwrite puts the buffer on disk and unpins it; no block shows anything else |
| CacheSpec.BrelseAgrees | CS236/Lab04&05-xv6-proc/bio.c:118-141 | brelse of a pinned or unchanged buffer changes no block's contents or pin, and gives up one lock, also when it moves the buffer to the front |
| CacheSpec.BrelseKeeps | CS236/Lab04&05-xv6-proc/bio.c:118-141 | the moved list is still coherent: at most one buffer a block, each agreeing with the disk unless dirty |
| CacheSpec.BrelseOrder | CS236/Lab04&05-xv6-proc/bio.c:118-141 | giving up the last reference puts the buffer first and leaves the others in their order; giving up another one moves nothing |
| CacheSpec.ReleasedSurvives | CS236/Lab04&05-xv6-proc/bio.c:78-141 | a block whose last reference has just been given up is still cached after as many further bgets, of any blocks, as there were other buffers to recycle |
| BufferCache.Unlink | CS236/Lab04&05-xv6-proc/bio.c:132-133 | taking a buffer out by its two neighbours' pointers leaves a well-linked circular list of the others in order |
| BufferCache.LinkFront | CS236/Lab04&05-xv6-proc/bio.c:134-137 | linking it in after the head leaves a well-linked list with it in front |
| BufferCache.Cache.constructor | CS236/Lab04&05-xv6-proc/bio.c:38-56 | binit makes a circular list that holds every buffer exactly once, all blank |
| BufferCache.Cache.Lookup | CS236/Lab04&05-xv6-proc/bio.c:68-76 | the walk along next finds the block's buffer if there is one |
| BufferCache.Cache.Recyclable | CS236/Lab04&05-xv6-proc/bio.c:78-92 | the walk along prev finds, among unreferenced clean buffers, the least recently released, and none only if there is none |
| BufferCache.Cache.Bget | CS236/Lab04&05-xv6-proc/bio.c:58-93 | on the linked list bget does exactly what the specification says on values: reuse, recycle or panic, no other buffer changed |
| BufferCache.Cache.Iderw | CS236/Lab04&05-xv6-proc/memide.c:35-60 | a dirty buffer goes to the disk, any other is filled from it; afterwards valid and clean |
| BufferCache.Cache.Bread | CS236/Lab04&05-xv6-proc/bio.c:95-106 | the buffer holds what an uncached store would, the disk is as before, every other buffer too; null only if every buffer is referenced or dirty |
| BufferCache.Cache.Bwrite | CS236/Lab04&05-xv6-proc/bio.c:108-116 | exactly one disk write, of this buffer's block; the block is no longer pinned |
| BufferCache.Cache.Brelse | CS236/Lab04&05-xv6-proc/bio.c:118-141 | giving up the last reference links the buffer in right after the head, with the others in their old order, and it is the most recently released of all; giving up another one moves nothing; no contents change; one lock is given up |
| CacheRefinement.BgetRefinesGet | CS236/Lab04&05-xv6-proc/bio.c:58-93 | bget on the list is a step of the concurrent system, also of the process that recovers, and it panics only if no such step exists |
| CacheRefinement.BrelseRefinesUnlockPut | CS236/Lab04&05-xv6-proc/bio.c:118-141 | brelse on the list is its unlock step followed by its release of the reference |
| Log.LogBlockMeansNothing | CS236/Lab04&05-xv6-proc/log.c:176-190 | while the on-disk header is empty, writes to log blocks do not change what the disk means |
| Log.HeaderSwitchesMeaning | CS236/Lab04&05-xv6-proc/log.c:98-113 | once the log blocks hold the new contents, the one header write turns the disk's meaning from the old contents into the new |
| Log.InstallKeepsMeaning | CS236/Lab04&05-xv6-proc/log.c:68-82 | copying a log block home, in any order and any number of times, does not change it |
| Log.ClearKeepsMeaning | CS236/Lab04&05-xv6-proc/log.c:192-202 | once all are home, clearing the header does not either, and the home blocks then are the contents |
| Log.Log.WriteLog | CS236/Lab04&05-xv6-proc/log.c:176-190 | the loop puts the latest contents of each logged block in its log block, and every disk state on the way still means the old contents |
| Log.Log.WriteHead | CS236/Lab04&05-xv6-proc/log.c:98-113 | one disk write, of the header block, which then decodes to the in-memory header |
| Log.Log.ReadHead | CS236/Lab04&05-xv6-proc/log.c:84-96 | the in-memory header becomes what the disk's header says; the disk is not written |
| Log.Log.InstallTrans | CS236/Lab04&05-xv6-proc/log.c:68-82 | afterwards every logged block is in place and unpinned, and every disk state on the way means the same contents |
| Log.Log.Commit | CS236/Lab04&05-xv6-proc/log.c:192-202 | of all disk states commit passes through, those before the header write mean the old contents and all from it on the new; at the end the home blocks are the new contents and the header is empty; an empty transaction writes nothing, any other every block twice and the header twice |
| Log.Log.Recover | CS236/Lab04&05-xv6-proc/log.c:115-122 | every disk state recovery passes through means what the disk meant when it began, and at the end the home blocks hold just that |
| Log.Log.LogWrite | CS236/Lab04&05-xv6-proc/log.c:213-233 | the header gains the block's number unless it is there, the block is pinned, and the buffer may now be released |
| Blocks.PutWord | CS236/Lab04&05-xv6-proc/fs.c:392 | storing one little-endian word in a block reads back, and every other word of the block reads as before |
| Blocks.PutBit | CS236/Lab04&05-xv6-proc/fs.c:66-68 | setting or clearing one bitmap bit by mask reads back, and every other bit of the block reads as before |
| Blocks.BitIs | CS236/Lab04&05-xv6-proc/fs.c:66-67 | bit k of a byte is the one that 1 << k masks |
| FileLayout.MapBits | CS236/Lab04&05-xv6-proc/fs.c:57-99 | on disk a block is in use if and only if bit b % 8 of byte b / 8 of the free map is set, 512 bytes of the map to a block |
| FileLayout.SlotsDistinct | CS236/Lab04&05-xv6-proc/fs.c:366-400 | no block number occurs twice among all direct addresses, indirect tables and table entries of all inodes |
| FileLayout.AddDirect | CS236/Lab04&05-xv6-proc/fs.c:378-382 | entering a fresh block as direct address keeps ownership |
| FileLayout.AddTable | CS236/Lab04&05-xv6-proc/fs.c:387-388 | entering a fresh zeroed block as indirect table keeps it: the table reads as empty |
| FileLayout.AddEntry | CS236/Lab04&05-xv6-proc/fs.c:389-394 | entering a fresh block in the table keeps it, the table block having been rewritten |
| FileLayout.Emptied | CS236/Lab04&05-xv6-proc/fs.c:402-435 | an inode whose addresses are all cleared owns nothing, and all others own what they did |
| FileLayout.BelowNext | CS236/Lab04&05-xv6-proc/fs.c:414-431 | the block truncation frees next is one it has not freed yet, or there is none at that index |
| InodeCodec.UpdateRoundTrip | CS236/Lab04&05-xv6-proc/fs.c:216-237 | after iupdate the disk inode decodes to the one in memory, and every other inode, in the same block or not, as before |
| InodeCodec.UpdatedWords | CS236/Lab04&05-xv6-proc/fs.h:27-43 | iupdate changes sixteen words, from word 16 * (i % 8) on of block inodestart + i / 8: type and major number, minor number and link count, size, twelve direct block numbers and the table's |
| FileContents.SpliceTwice | CS236/Lab04&05-xv6-proc/fs.c:498-504 | writing two adjacent pieces one after the other is writing them at once |
| FileContents.GrownShows | CS236/Lab04&05-xv6-proc/fs.c:366-400 | allocating a block for a file changes the contents of no file |
| FileContents.WriteShowsOthers | CS236/Lab04&05-xv6-proc/fs.c:498-504 | writing one file's data block changes no other file |
| FileContents.WriteShowsSplice | CS236/Lab04&05-xv6-proc/fs.c:498-504 | overlaying bytes in the block of an offset replaces those bytes of the file, extending it if they pass its end |
| FileContents.SpanStep | CS236/Lab04&05-xv6-proc/fs.c:498-500 | each round of the write loop touches one more block, and only an aligned one can be new |
| FileContents.EmptiedShowAll | CS236/Lab04&05-xv6-proc/fs.c:402-435 | after truncation the file is empty and every other file is as before |
| FileSystem.FileSystem.Mount | CS236/Lab04&05-xv6-proc/fs.c:32-39 | a disk without holes and with an exact bitmap meets the invariant |
| FileSystem.FileSystem.Balloc | CS236/Lab04&05-xv6-proc/fs.c:56-78 | the lowest free block, marked and zeroed, nothing else changed but its bitmap block; none only if every block is in use |
| FileSystem.FileSystem.Bfree | CS236/Lab04&05-xv6-proc/fs.c:81-95 | the block and no other becomes free |
| FileSystem.FileSystem.Bmap | CS236/Lab04&05-xv6-proc/fs.c:366-400 | the block of that index, allocated zeroed if it was missing, the indirect table too; ownership, bitmap and other files as before; exactly which blocks it logs; it panics only with fewer free blocks than it has to allocate |
| FileSystem.FileSystem.Iupdate | CS236/Lab04&05-xv6-proc/fs.c:216-237 | memory and disk agree on every inode again, contents and ownership unchanged, one block logged, in which the inode's words hold its fields in the order of struct dinode and all others are as before |
| Reservation.WriteCosts | CS236/Lab04&05-xv6-proc/fs.c:479-511 | the blocks a write logs are at most those it spans, as many blocks of the free map as it may allocate blocks and as there are for data, the table and the inode's |
| Reservation.AccountMore | CS236/Lab04&05-xv6-proc/fs.c:498-504 | one round more adds to the blocks logged exactly the block touched and what allocating it logs |
| Reservation.FreshSize | CS236/Lab04&05-xv6-proc/fs.c:372-400 | a write allocates at most a block for each it spans, but for a first one it begins in the middle of, and a table |
| Reservation.TakenTrans | CS236/Lab04&05-xv6-proc/fs.c:372-400 | what two allocations after each other log is what both log |
| FileSystem.FileSystem.WriteLoop | CS236/Lab04&05-xv6-proc/fs.c:498-504 | block by block, the loop has written the prefix it has consumed and logged exactly what that takes |
| FileSystem.FileSystem.Writei | CS236/Lab04&05-xv6-proc/fs.c:479-511 | it fails exactly on an offset past the end or a write past the largest file, changing nothing; otherwise the file is spliced with the bytes, every other file is unchanged, and the invariant holds; exactly which blocks it logs, and at most how many; it panics only with fewer free blocks than it may have to allocate |
| FileSystem.FileSystem.Readi | CS236/Lab04&05-xv6-proc/fs.c:450-477 | it fails exactly on an offset past the end or a sum that overflows; otherwise it returns the file's bytes from the offset, up to its end; nothing changes, and it never allocates |
| FileSystem.FileSystem.FreeSlot | CS236/Lab04&05-xv6-proc/fs.c:414-430 | truncation's bfree meets an allocated block each time, so "freeing free block" cannot happen |
| FileSystem.Truncated | CS236/Lab04&05-xv6-proc/fs.c:402-435 | clearing the inode and only bitmap blocks gives ownership, contents and bitmap without that inode |
| FileSystem.FileSystem.Itrunc | CS236/Lab04&05-xv6-proc/fs.c:402-435 | the file is empty, exactly the blocks the inode owned are free, every other file and inode is as before |
| FileSystem.FileSystem.Remountable | CS236/Lab04&05-xv6-proc/fs.c:216-237 | between calls the disk by itself holds the file system: it can be mounted with the same files |
| CrashSafety.NothingYet | CS236/Lab04&05-xv6-proc/log.c:53-66 | a disk that can be mounted starts a history of whole calls |
| CrashSafety.BracketGrows | CS236/Lab04&05-xv6-proc/log.c:124-174 | begin_op and end_op change no file, so that calls of several processes may share a transaction |
| CrashSafety.CallGrows | CS236/Lab04&05-xv6-proc/log.c:124-174 | a call of a process inside an operation that leaves a file system extends a history between whose calls the store is one, whoever else is inside one |
| CrashSafety.MethodGrows | CS236/Lab04&05-xv6-proc/fs.c:366-511 | the methods of FileSystem are such calls: what they log makes the store a file system with the files they promise |
| CrashSafety.RecoveredFiles | CS236/Lab04&05-xv6-proc/log.c:68-122 | crash anywhere, then any number of times in recovery: the disk that is left can be mounted, and holds the files after the whole calls committed before the crash |
| CrashSafety.CrashInFilewrite | CS236/Lab04&05-xv6-proc/file.c:131-150 | crash at any point of a filewrite, then any number of times in recovery: the disk that is left can be mounted, and holds a number of whole chunks of the bytes and every other file as before |
| OpenFile.ChunkFits | CS236/Lab04&05-xv6-proc/file.c:133 | a write of at most a chunk logs at most MAXOPBLOCKS blocks, at every offset and on every disk |
| OpenFile.ChunkIsTight | CS236/Lab04&05-xv6-proc/file.c:133 | the bound on what a write logs lets one byte more through at every offset if and only if at most four blocks of the free map mark the data blocks |
| WorstWrite.OneByteMore | CS236/Lab04&05-xv6-proc/file.c:133 | on a disk that is not wide (see below) writei of one byte more than a chunk logs at most MAXOPBLOCKS blocks, whatever the file and the offset |
| WorstWrite.OnlyWide | CS236/Lab04&05-xv6-proc/fs.c:479-511 | logging more takes five new blocks in five blocks of the free map, one a new table; allocation being lowest first, the files own all data blocks before them, and hold at most 141 each |
| WorstWrite.ChunkAndOne | CS236/Lab04&05-xv6-proc/file.c:133 | on every wide disk there is a file system that can be mounted and a file of twelve blocks in it such that writei of one byte more than a chunk at its end splices the bytes in and logs MAXOPBLOCKS + 1 blocks |
| WorstWrite.WorstLogs | CS236/Lab04&05-xv6-proc/fs.c:498-504 | growing by four blocks and a table out of five free blocks that are marked in five blocks of the free map logs eleven blocks |
| OpenFile.File.Fileread | CS236/Lab04&05-xv6-proc/file.c:95-113 | the bytes from the file's offset, which moves by their number; when it fails |
| OpenFile.File.WriteChunk | CS236/Lab04&05-xv6-proc/file.c:136-145 | one bracket: the bytes go in at the offset, which moves; its writes lead from the store before to the store after, are at most MAXOPBLOCKS blocks, and exactly which ones |
| OpenFile.File.Filewrite | CS236/Lab04&05-xv6-proc/file.c:115-156 | exactly how many bytes are written for every offset and length, all of them or whole chunks and -1; where the offset ends; one bracket for each chunk tried, the refused one included; after each the disk holds a file system with just the chunks so far, to which its writes lead |
| FreeList.SpotExists | CS236/Lab04&05-xv6-proc/umalloc.c:30-32 | an address-ordered circular list has exactly one place for a block that is not in it |
| FreeList.Link | CS236/Lab04&05-xv6-proc/umalloc.c:33-43 | linking a live block in there keeps the list circular and ordered, and takes the block from the live ones |
| FreeList.Join | CS236/Lab04&05-xv6-proc/umalloc.c:33-42 | merging two touching neighbours keeps it, and their units become one block's |
| FreeList.Unlink | CS236/Lab04&05-xv6-proc/umalloc.c:76-77 | unlinking an exact fit keeps it and makes the block live |
| FreeList.SplitOff | CS236/Lab04&05-xv6-proc/umalloc.c:78-82 | cutting a tail keeps it: head still free and not touching its neighbours, tail live |
| FreeList.Grow | CS236/Lab04&05-xv6-proc/umalloc.c:46-61 | a fresh region enters as a live block disjoint from all others |
| FreeList.UnitsOwned | CS236/Lab04&05-xv6-proc/umalloc.c:24-90 | the sizes of any set of blocks add up to the units they cover |
| FreeList.Conservation | CS236/Lab04&05-xv6-proc/umalloc.c:24-90 | live units plus free units are the units obtained from sbrk |
| Umalloc.LargeEnough | CS236/Lab04&05-xv6-proc/umalloc.c:69 | the computed size holds the request if and only if the request is at most 2^32 - 8 bytes |
| Umalloc.MorecoreGetsBlock | CS236/Lab04&05-xv6-proc/umalloc.c:52-59 | when sbrk succeeds, morecore has the block it frees if and only if malloc was asked for at most 2^31 - 16 bytes or for so many that the block size has wrapped |
| Umalloc.FreshIsGained | CS236/Lab04&05-xv6-proc/umalloc.c:54 | the fresh region that Morecore and Malloc are promised is one that sbrk can have granted |
| Umalloc.Stops | CS236/Lab04&05-xv6-proc/umalloc.c:30-32 | free's loop condition fails, the wrapped-around case included, exactly at the one right node |
| Umalloc.WalkNext | CS236/Lab04&05-xv6-proc/umalloc.c:74-89 | each step of malloc's scan comes nearer to a bound: the lap's end before morecore, a fitting node after |
| Umalloc.WalkEnds | CS236/Lab04&05-xv6-proc/umalloc.c:86-88 | when the scan is back at freep without a fit, morecore has not been called and no free block is large enough |
| Umalloc.Freed | CS236/Lab04&05-xv6-proc/umalloc.c:33-43 | the pointer writes of free, both joins included, leave a sound and fully coalesced list without that live block, and no live block's contents changed |
| Umalloc.Heap.constructor | CS236/Lab04&05-xv6-proc/umalloc.c:21-22 | an empty heap is valid |
| Umalloc.Heap.Search | CS236/Lab04&05-xv6-proc/umalloc.c:30-32 | the search ends, at the only insertion point |
| Umalloc.Heap.Free | CS236/Lab04&05-xv6-proc/umalloc.c:24-44 | exactly that block stops being live; the list stays circular, ordered and coalesced; other live blocks and their contents stay; freep is left at the last node below the block |
| Umalloc.Heap.Take | CS236/Lab04&05-xv6-proc/umalloc.c:75-84 | a fitting node gives up all of itself or its tail, and freep is left at the node before it |
| Umalloc.Heap.Morecore | CS236/Lab04&05-xv6-proc/umalloc.c:46-61 | at least 4096 units are asked for; the list then has a block that fits at freep or next to it; on failure nothing changes |
| Umalloc.Heap.Malloc | CS236/Lab04&05-xv6-proc/umalloc.c:63-90 | it ends; it fails exactly if no free block fits and sbrk fails; it calls sbrk exactly if none fits, and once; the result is new, of the right size, the tail of the next fit if there is one, and freep is left at the node before the one it was cut from or unlinked, also after morecore; every live block keeps its place and contents |
| Umalloc.Heap.MallocTwice | CS236/Lab04&05-xv6-proc/umalloc.c:63-90 | of two calls in a row the second cuts its block right below the first's as long as the block that the first was cut from has room: the second search starts at the node before it |
| Umalloc.CutRests | CS236/Lab04&05-xv6-proc/umalloc.c:75-84 | where freep is left can be read off the list afterwards: at the node before the one that ends where the new block begins, or, when a whole node was taken, at the last node below it |
| PageTables.TablesFrame | CS236/Lab04&05-xv6-proc/vm.c:32-55 | what a page directory maps depends only on its own table pages |
| PageTables.AddTable | CS236/Lab04&05-xv6-proc/vm.c:41-53 | hanging in a zeroed table page, open to users and for writing, changes no mapping |
| PageTables.SetPte | CS236/Lab04&05-xv6-proc/vm.c:57-80 | writing one entry changes the mapping of one page and of no other |
| PageTables.MapUser | CS236/Lab04&05-xv6-proc/vm.c:219-249 | mapping a page that no user address maps keeps the mapping one to one |
| PageTables.UnmapUser | CS236/Lab04&05-xv6-proc/vm.c:269-276 | clearing an entry takes exactly its page out of the mapped ones |
| Vm.Machine.Kalloc | CS236/Lab04&05-xv6-proc/kalloc.c:79-96 | one page leaves the free set; 0 if and only if it is empty |
| Vm.Machine.Kfree | CS236/Lab04&05-xv6-proc/kalloc.c:55-77 | the page enters the free set, and only its own contents change |
| Vm.Machine.WalkAlloc | CS236/Lab04&05-xv6-proc/vm.c:32-55 | the table exists afterwards, or there was no free page and nothing has changed; no mapping changes |
| Vm.Machine.Mappages | CS236/Lab04&05-xv6-proc/vm.c:57-80 | the range maps to consecutive pages with the permissions, or just a prefix of it if pages ran out; nothing else changes |
| Vm.Machine.Deallocuvm | CS236/Lab04&05-xv6-proc/vm.c:251-279 | with the skip over absent tables it still unmaps and frees exactly the present pages from the new size up to the old, each once; every other mapping and page is as before |
| Vm.Machine.Freevm | CS236/Lab04&05-xv6-proc/vm.c:281-298 | every page of the address space, tables and directory included, is free again, each freed once |
| Vm.Machine.Allocuvm | CS236/Lab04&05-xv6-proc/vm.c:219-249 | success maps new zeroed pages over the range, present, writable and open to users, and nothing else; failure leaves every user mapping and data page as it was |
| Vm.KernelRow | CS236/Lab04&05-xv6-proc/vm.c:103-115 | mapping a row of kmap adds just that row to the kernel part |
| Vm.KernelBits | CS236/Lab04&05-xv6-proc/vm.c:103-115 | bit by bit: physical memory from KERNBASE on, page by page, the devices at their own addresses, all closed to users and writable but for the text, and nothing else |
| Vm.Machine.Setupkvm | CS236/Lab04&05-xv6-proc/vm.c:117-136 | the new directory maps exactly the kernel, closed to users and read-only in its text, or all pages it took are free again |
| Vm.Machine.Copyuvm | CS236/Lab04&05-xv6-proc/vm.c:313-345 | the child has the parent's flags and bytes at every page below the size, in pages that were free before, above it only the kernel, and the parent is untouched; on any failure the free pages are exactly those before the call |
| Crossing.AllConsistent | CS240/Lab2/Lab2_Solution.py:47-67 | h1, h2 and h3 drop by no more than the cost of any legal crossing, for all numbers of missionaries and cannibals |
| Crossing.HeuristicsCount | CS240/Lab2/Lab2_Solution.py:47-67 | h1 changes by all who cross, h2 by the missionaries, h3 by the cannibals, and an empty left bank gives 0 |
| Crossing.CheckValidIs | CS240/Lab2/Lab2_Solution.py:6-18 | a state is valid if and only if there are no more cannibals than missionaries in all, everybody is on one of the banks, and on each bank there is no missionary or there are at least as many missionaries as cannibals |
| Crossing.Mirror | CS240/Lab2/Lab2_Solution.py:6-18 | a state is valid if and only if its mirror image is |
| Crossing.GetNeighbours | CS240/Lab2/Lab2_Solution.py:20-41 | the list holds exactly the states one boat load away, on the other side, in which the missionaries are safe on both banks |
| Crossing.EveryLoad | CS240/Lab2/Lab2_Solution.py:26-39 | the five moves are all boat loads of one or two people |
| Crossing.DropsSlowly | CS240/Lab2/Lab2_Solution.py:99-109 | along any path f never falls: cost so far plus a consistent h is at most cost at the end plus h there |
| AStar.HeapPop | CS240/Lab2/Lab2_Solution.py:83 | a least entry by f, then g, then the rest, is taken and the others stay |
| AStar.BestOffer | CS240/Lab2/Lab2_Solution.py:82-109 | for every path to a state not closed the queue holds an entry with f at most the path's cost plus h |
| AStar.PoppedIsMinimal | CS240/Lab2/Lab2_Solution.py:82-90 | the first pop of a state has the least cost of all paths to it |
| AStar.ReachedIsClosed | CS240/Lab2/Lab2_Solution.py:82-110 | when the queue is empty every reachable state has been closed |
| AStar.Rebuild | CS240/Lab2/Lab2_Solution.py:92-97 | following the parents gives a legal path from the start of just the cost recorded |
| AStar.MasterAstar | CS240/Lab2/Lab2_Solution.py:70-110 | it ends; [] if and only if there is no sequence of crossings to the goal; otherwise one of minimum cost, from init to the goal, with one boat load to a crossing and the missionaries safe on both banks after each |
| AStar.AstarH1 | CS240/Lab2/Lab2_Solution.py:112-116 | the same with h1, with no condition on any argument |
| AStar.AstarH2 | CS240/Lab2/Lab2_Solution.py:118-122 | the same with h2 |
| AStar.AstarH3 | CS240/Lab2/Lab2_Solution.py:124-128 | the same with h3 |
| Puzzle.Solvable | CS240/Lab2/Lab2_Solution.py:166-184 | everybody can be brought across if and only if there are more missionaries than cannibals, or one, two or three of each |
| Puzzle.Solve | CS240/Lab2/Lab2_Solution.py:166-184 | main's loop: the initial state passes if and only if there are no more cannibals than missionaries; then each of the three searches finds a plan exactly in those cases, and all three the same cost |
| Viterbi.Recurrence | CS240/Lab9+10Solution/HMM.py:141-164 | extending the best predecessor's path gives a best path of one tag more |
| Viterbi.NoBetter | CS240/Lab9+10Solution/HMM.py:141-156 | no tag sequence that ends in two given tags scores more than the product formed for them |
| Viterbi.ColumnMax | CS240/Lab9+10Solution/HMM.py:160-163 | the first row with the largest entry of a column |
| Viterbi.GetPosTags | CS240/Lab9+10Solution/HMM.py:130-191 | the result has a tag for every word (one for an empty sentence), and its product of start, transition, emission and end probabilities is at least that of every tag sequence of that length, and larger than that of those with an earlier last tag |
| Tagger.ScoreIsProduct | CS240/Lab9+10Solution/HMM.py:130-185 | the score is the start probability of the first tag times, for every place, the emission of its word and the transition to the next tag or the end |
| Tagger.EmissionIsSmoothed | CS240/Lab9+10Solution/HMM.py:149-156 | with trained probabilities every word, seen in training or not, is emitted with the add-one smoothed value of its count over the same vocabulary, 0 for one not seen |
| Emissions.CountWords | CS240/Lab9+10Solution/HMM.py:77-85 | the nested dictionary the loop builds, for every token list |
| Emissions.CountsRight | CS240/Lab9+10Solution/HMM.py:79-85 | a word's counts are right if and only if its first occurrence carries the last tag of the list |
| Emissions.CountsWrong | CS240/Lab9+10Solution/HMM.py:79-85 | a one-word input whose count goes to the wrong tag |
| Emissions.Normalized | CS240/Lab9+10Solution/HMM.py:92-95 | smoothed counts of a column are positive and add up to one |
| Emissions.MakeWordGivenTag | CS240/Lab9+10Solution/HMM.py:74-95 | for every token list, each tag's emission probabilities over the words seen are the smoothed counts, positive, and add up to one |
| Pipe.InFlight | CS236/Lab04&05-xv6-proc/pipe.c:84-118 | bytes in flight are nwrite - nread mod 2^32 and at most PIPESIZE, and the full and empty tests are right, whatever the counters have wrapped |
| Pipe.Pipe.constructor | CS236/Lab04&05-xv6-proc/pipe.c:22-46 | a new pipe is empty and open at both ends |
| Pipe.Pipe.Close | CS236/Lab04&05-xv6-proc/pipe.c:59-75 | one end closes, the bytes in flight stay, and everybody asleep at the other end is woken |
| Pipe.Pipe.Write | CS236/Lab04&05-xv6-proc/pipe.c:78-98 | between two sleeps a writer adds the next bytes of its buffer, as many as fit, and nothing is delivered or overwritten; when it sleeps, fails or is done; unless it fails it wakes all readers |
| Pipe.Pipe.Read | CS236/Lab04&05-xv6-proc/pipe.c:100-121 | a reader gets the next bytes accepted, in order, as many as there are up to n; when it sleeps, fails or returns 0; unless it sleeps or fails it wakes all writers |
| Pipe.NoLostWakeups | CS236/Lab04&05-xv6-proc/pipe.c:59-121 | in every run of any number of readers and writers nobody sleeps who could go on, if and only if no killed writer has filled the pipe and returned in the middle of its write while a reader slept |
| Pipe.ForgottenReader | CS236/Lab04&05-xv6-proc/pipe.c:84-90 | that happens: a reader then sleeps on with 512 bytes in the pipe |
| ProcTable.BootInv | CS236/Lab04&05-xv6-proc/proc.c:203-239 | the table after userinit meets the invariant |
| ProcTable.AllocInv | CS236/Lab04&05-xv6-proc/proc.c:151-201 | allocproc keeps it: the new pid is new and the slot has no kin |
| ProcTable.ExitInv | CS236/Lab04&05-xv6-proc/proc.c:317-361 | exit keeps it: the parent is awake, the children have passed to init, and init is awake if one of them is a zombie |
| ProcTable.WaitInv | CS236/Lab04&05-xv6-proc/proc.c:363-405 | wait keeps it, whether it reaps, returns -1 or sleeps |
| ProcTable.KillInv | CS236/Lab04&05-xv6-proc/proc.c:577-598 | kill keeps it: nobody killed stays asleep |
| ProcTable.StepInv | CS236/Lab04&05-xv6-proc/proc.c:151-598 | so does every step of every process |
| ProcTable.InvAlways | CS236/Lab04&05-xv6-proc/proc.c:151-598 | it holds in every state of every run from boot |
| ProcTable.NoLostWakeups | CS236/Lab04&05-xv6-proc/proc.c:363-405 | in every run, a process asleep in wait has a child, no zombie child, and has not been killed |
| ProcTable.WaitDoes | CS236/Lab04&05-xv6-proc/proc.c:363-405 | in every run wait sleeps if and only if the caller has a child, no zombie child, and is not killed, and returns -1 if and only if it has no zombie child and is childless or killed; otherwise it empties the first slot with a zombie child; nothing else changes |
| ProcTable.ExitDoes | CS236/Lab04&05-xv6-proc/proc.c:317-361 | in every run exit makes the caller a zombie, gives its children to init, and wakes those asleep on its parent, those asleep on init if init inherits a zombie, and nobody else |
| ProcTable.AllocDoes | CS236/Lab04&05-xv6-proc/proc.c:151-175 | in every run fork gets the first unused slot, with a pid that no process has had before, or none if and only if no slot is unused |
| ProcTable.ForkDoes | CS236/Lab04&05-xv6-proc/proc.c:262-315 | in every run the new slot then becomes unused again, or gets the caller as parent and becomes runnable |
| ProcTable.WhoCanStep | CS236/Lab04&05-xv6-proc/proc.c:151-598 | in every run a process that is not asleep can go on, from user mode into any call, from wait once woken, and through the parts of fork, and anybody can be killed |
| ProcTable.ParentsLive | CS236/Lab04&05-xv6-proc/proc.c:348-355 | in every run, a recorded parent is another process that is neither unused, embryo nor zombie |
| ProcTable.ReapsFresh | CS236/Lab04&05-xv6-proc/proc.c:380-392 | what wait reaps has exited and has not been reaped |
| ProcTable.ReapedOnce | CS236/Lab04&05-xv6-proc/proc.c:380-392 | in every run each exited process is reaped at most once |
| ProcTable.PidsAlways | CS236/Lab04&05-xv6-proc/proc.c:164-174 | in every run no two slots have the same pid but 0, slots left unused by a fork that failed included |
| ProcTable.KillReaches | CS236/Lab04&05-xv6-proc/proc.c:577-598 | in every run kill with the pid of a process in use marks that process, waking it if it sleeps, and changes nothing else |
| ProcTable.KillHits | CS236/Lab04&05-xv6-proc/proc.c:577-598 | in every run kill changes a slot not in use if and only if nobody has the pid and the first slot that still has it is unmarked; for a pid other than 0, the slot of a fork that failed with it |
| ProcTable.KillZero | CS236/Lab04&05-xv6-proc/proc.c:577-598 | after kill(0) the next child created is killed from the start |
| ProcScans.Ptable.constructor | CS236/Lab04&05-xv6-proc/proc.c:203-239 | the array after boot is the model's initial table |
| ProcScans.Ptable.Wakeup1 | CS236/Lab04&05-xv6-proc/proc.c:555-566 | the loop makes runnable exactly the sleepers on the channel |
| ProcScans.Ptable.Allocproc | CS236/Lab04&05-xv6-proc/proc.c:151-201 | the loop takes the first unused slot, if there is one, and is the allocation step |
| ProcScans.Ptable.Exit | CS236/Lab04&05-xv6-proc/proc.c:317-361 | waking, reparenting in one pass with init woken at the first zombie, and the change of state are together the exit step, slot by slot |
| ProcScans.Ptable.Wait | CS236/Lab04&05-xv6-proc/proc.c:363-405 | the scan is the wait step: it sleeps if and only if the caller has a child, no zombie child, and is not killed; it returns -1 if and only if there is no zombie child and the caller is childless or killed; otherwise it empties the first slot with a zombie child, whose pid it returns and which nobody had reaped |
| ProcScans.Ptable.Kill | CS236/Lab04&05-xv6-proc/proc.c:577-598 | the loop is the kill step: the first slot with the pid is marked and, if asleep, runnable, and it returns 0; without such a slot nothing changes and it returns -1 |

## Left out

- Log.Log.Commit: the class runs without interference (nobody else holds a buffer, as in a commit); interleaving is the subject of `LogSystem`. When bget panics, which is when every buffer is referenced or pinned, the methods return false and only the disk states passed through are described.
- Log.Log.LogWrite: its two panics are preconditions here; when they can be met is proved in `LogTheorems` and `LogGuard`.
- LogInvariant.AppendInv: log_write's tests, which read three fields without the lock, are one step here.
- LogInvariant.InitInv: a well-formed log lists fewer blocks than there are buffers, as every commit that gets to its header write does.
- LogInvariant.StepInv: sleeping and waking are waiting until a step is enabled; that a waiter is ever served (fairness) is not stated.
- BufferCache.Cache.Iderw: one disk, transferred synchronously; interrupts and device numbers other than ROOTDEV in a request are not part of this model.
- FileSystem.FileSystem.Writei: one call at a time on the block store that log and cache present; inode locks are not modelled. T_DEV inodes, whose reads and writes go to a driver, are excluded by precondition.
- FileSystem.FileSystem.Readi: T_DEV inodes are excluded here too.
- FileSystem.FileSystem.Mount: the disk is assumed free of holes and its bitmap exact. That mkfs makes such a disk is not claimed.
- FileSystem.FileSystem.Bfree: "freeing free block" is a precondition, proved at every call.
- FileSystem.FileSystem.Itrunc: no bound on the bitmap blocks it logs, since the source has none.
- OpenFile.File.Fileread: files that are pipes or devices are excluded.
- OpenFile.File.Filewrite: pipes, devices and reference counts of open files are left out; the bytes to write are a sequence, so a negative count, which fails at once, is not modelled.
- LogProgress.CommitCompletes: that a commit can be completed, not that it is: a process that keeps a buffer locked forever delays it, and fairness is not stated.
- CrashSafety.CallGrows: the calls of several processes may share a transaction, but one call's log_writes are not interleaved with another's, as the locks of inodes would allow for different files.
- CrashSafety.CrashInFilewrite: the same; that the history of the run is that of filewrite is a hypothesis, since the class FileSystem and the concurrent system are joined by what is logged, not by running one on the other.
- Inode allocation, the inode cache, directories, path names and link counts: the layout invariant covers inodes, not names.
- Umalloc.Heap.Malloc: addresses count units of 8 bytes, sbrk's answer is a parameter that must be a fresh region above the list's base, and programs do not write outside their blocks. Requests for which sbrk succeeds without giving the whole block (`Umalloc.MorecoreGetsBlock`) are thereby excluded.
- Umalloc.Heap.Morecore: the same.
- Vm.Machine.Deallocuvm: virtual addresses are counted in pages once rounded; sizes are at most KERNBASE, as all callers keep them. The remap and "kfree" panics are preconditions, proved at every call here.
- Vm.Machine.Kfree: the bound given by the kernel's end address is not modelled, page numbers only have to be in range; the junk fill is one repeated word.
- Vm.Machine.Copyuvm: the panics on absent pages are excluded by the precondition that all pages below the size are mapped.
- inituvm, loaduvm, copyout, uva2ka, growproc and the loading of page-table registers: straight-line uses of the above.
- AStar.HeapPop: the heap as taking out a least entry in tuple order (f, g, parent, state), not as a binary heap in an array. Comparing a missing parent, which Python rejects, does not arise, since only the first entry has none.
- Viterbi.GetPosTags: probabilities are reals, so rounding and underflow are not modelled; tags are indices into the tag list.
- Emissions.CountWords: tokens are given as one list, in lower case already, and every tag is in the tag list; reading files, folds, make_tag_given_tag and accuracy counts are left out.
- Pipe.Pipe.constructor: pipealloc's failing allocations.
- Pipe.Pipe.Close: the page freed when both ends are closed.
- ProcTable.StepInv: the scheduler, context switches, open files, memory and the wrap of nextpid are left out; what fork does without the lock is atomic steps of its own.
- Pipe.Pipe.Write: a negative count is not modelled for writers.
- Pipe.NoLostWakeups: that whoever is woken gets the processor is not stated.
- The console, interrupts, boot code, the shell and user programs, the other labs and the copies of xv6 in other directories.
