# A Dafny model of bootchart2

bootchart2 has two halves that meet in a set of log files. A collector written in C runs from
early boot on, keeps its data in memory and is dumped later by a second process that attaches to
it. A Python program parses the logs, rebuilds the process forest and shrinks it for drawing.
This project models both halves and proves what they keep.

The modules, by component:

| module | models |
|---|---|
| `Samples`, `Forest` | samples, the `Process` object and an immutable picture (`Forest`) of a child list and everything below it |
| `Pruning`, `Merging` | what `prune`, `merge_siblings` and `merge_runs` do, as functions on pictures, and their properties |
| `ProcessTree` | the passes themselves, in place on child lists |
| `OrphanClimb`, `Compile`, `BuildSteps`, `Build`, `Daemons` | `Trace.compile`, `build` and `update_ppids_for_daemons`: parents from the paternity log, links, statistics, the forest, services moved below rc |
| `ChunkLog`, `OutputBuffers`, `Streams` | output.c: streams cut into chunks of one shared table, as values and in place, one stream and all together |
| `LiveDump`, `LiveSteps`, `LiveFiles`, `LiveRuns`, `LiveGap` | dump.c against a collector that goes on running, one memory step at a time |
| `DumpedFrames` | both of these and the parser together |
| `PidTable`, `PidScanner`, `PidReplay` | the sorted process table of tasks-netlink.c, as values and in place, and what events leave of one process in it |
| `NetlinkProtocol` | listener, main thread, lock, event queue and the scan of /proc, one memory step at a time |
| `Text`, `TimedFrames`, `TimedBlocks`, `SplitterSteps`, `Splitters`, `CmdlineParts`, `CmdlineRecord` | string functions of Python, timestamped frames and command line records, written, cut off and read back; the two splitters compared |
| `TaskStats`, `TaskStatsLog`, `ProcLines`, `ParsedProcs` | the taskstats parser, from its lines and from the text, and what it makes of the lines of one process |
| `ElisionSteps`, `Elision`, `ElidedLog`, `WrittenLines`, `CutLines`, `CutLog` | the lines that the collector leaves out, the file that is left, in the fields of the readings, and that file cut off anywhere |
| `PidMap`, `Dmesg` | the bitmap of known pids and the exec event; the kernel log without its levels |

The usual shape is a function on values that says what an operation does, lemmas about that
function, and a method in the form of the source (loops over arrays, lists and objects updated in
place) whose `ensures` equates the new state with the function.

A `Forest` picture names process objects. `Holds(owner, f)` says that the heap below the child list
of `owner` is exactly `f`, every object occurring once. The list that the Python passes get as an
argument is the child list of `owner`; for the top list, `owner` stands for the tree object.

Where the code does not do what its names or comments say, the model follows the code:

* `prune` is not idempotent: it decides on the forest as it was, so a process can lose its
  children and become prunable only afterwards (`Pruning.PruneTwice` says exactly when).
* `remove_pid_thread` damages thread lists of two and more (`PidTable.DropThreadRightIff`).
* Leaving out unchanged taskstats lines is lossless exactly when every line left out that the parser
  could have read repeats the name and total of the last readable line of its process
  (`Elision.ElisionIsLosslessIff`). A process that execs while its counters stand still breaks it;
  so does one whose line is left out after a line that was skipped for a blank in the name.
* The dumper copies the chunk pointers before their count, and without the lock. A chunk that the
  listener allocates in between is counted but has no pointer; the failed read goes unnoticed, and the
  chunk before is written a second time (`LiveGap.DumpRepeatsAChunk`; `LiveRuns.DumpIsVerbatimIff` and
  `LiveRuns.DumpIsUpToDateIff` say, stream by stream, when a file is right).
* If no name has a blank, a taskstats file that ends right behind the fifth blank of a line, or behind a
  minus sign there, makes the parser fail as a whole; cut anywhere else it is read up to that line, of
  which a last number with fewer digits may be left (`CutLog.CutFailsIff`, `CutLog.CutCostsOneLine`). If
  a name ends in a blank and a number, what is left of its line can pass for a line with its values in
  the wrong places (`CutLog.CutMakesARow`).
* The dmesg loop loses the text of a line that has no `>` behind its first character
  (`Dmesg.NoLineIsLostIff`).
* A fork event of a thread that comes after the exit of its process puts the process back into the
  table, for good; `PidTable.AliveAfter` counts it as alive, as the code does.
* The "not running" filter of `_iter_parse_timed_blocks` never fires, because its lines have been
  stripped. An empty line ends a block there, and an empty block ends the log. The other splitter skips
  further empty lines two at a time, and fails if a single one is left in front of a block
  (`Splitters.AgreeIff` says when both give the same).
* "skip to the next arg" in `dump_cmdline` skips nothing, because the byte it looks at has just
  been zeroed; the rest of the argument becomes an argument of its own.
* A single newline in an exe link turns what follows it into the arguments of the record; at the end of
  the link it makes the record disappear (`CmdlineRecord.NewlineInExe`).
* The climb to the nearest ancestor with an entry does not come back when the chain of the
  paternity log is circular (`OrphanClimb.ClimbEndsIff`), and `build` leaves out every process whose
  links never reach a root.
* The stub for init has the pid 1 but stands under the key 1000.

## Model

| member | source | states |
|---|---|---|
| `ProcessTree.ProcessTree.Prune` | pybootchartgui/process_tree.py:155-195 | Popping a process, inserting its children at the index and staying there turns the list into `Hoist` of the old forest, on the heap, for every forest; the result is the number of nodes lost, and the loop ends although the same index is examined again. |
| `ProcessTree.ProcessTree.IsIdleBackgroundProcessWithoutChildren` | pybootchartgui/process_tree.py:162-168 | The test is the idle-background condition on the process as it was before the pass. |
| `ProcessTree.NumNodes` | pybootchartgui/process_tree.py:100-105 | The count is the number of nodes of the forest the list shows. |
| `Pruning.HoistObjects` | pybootchartgui/process_tree.py:170-195 | The objects left by the pass are the survivors, chosen by a test on the original forest alone. |
| `Pruning.PruneIsAFilter` | pybootchartgui/process_tree.py:155-195 | A process is left after the pass if and only if it is not doomed in the original forest. |
| `Pruning.PruneKeepsIff` | pybootchartgui/process_tree.py:155-195 | In the fields of a process: it is left if and only if it is a root with children, or it lasts more than two periods and was active, has children, ended before the end, was there from the start, or lasted at most nine tenths of the time. |
| `Pruning.PruneOrder` | pybootchartgui/process_tree.py:183-188 | Two children that are left keep their order if their parent is left, and are in reverse order if it is not. |
| `Pruning.SizeIsNumber` | pybootchartgui/process_tree.py:100-105 | The number of nodes is that of the objects. |
| `Pruning.PruneKeepsAncestry` | pybootchartgui/process_tree.py:183-192 | Among survivors, u is an ancestor of v afterwards if and only if it was before. |
| `Pruning.HoistDistinct` | pybootchartgui/process_tree.py:183-188 | Splicing children into the list that is being scanned never makes an object occur twice. |
| `Pruning.PruneLeavesLong` | pybootchartgui/process_tree.py:179-181 | Every process below the roots that is left lasts longer than two sample periods. |
| `Pruning.NoneDoomedIsFixed` | pybootchartgui/process_tree.py:170-195 | The pass changes nothing if no process is doomed, and otherwise makes the forest smaller. |
| `Pruning.PruneTwice` | pybootchartgui/process_tree.py:162-190 | A second pass changes nothing if and only if no survivor lost all its descendants and would be doomed as a leaf. |
| `Pruning.PruneTwiceDiffers` | pybootchartgui/process_tree.py:174-190 | A short-lived root above one short-lived child goes only in the second pass. |
| `ProcessTree.ProcessTree.MergeProcesses` | pybootchartgui/process_tree.py:286-294 | The first process gets the samples of both in time order, the earlier start and the later end. |
| `ProcessTree.ProcessTree.MergeSiblings` | pybootchartgui/process_tree.py:244-265 | The loop that pops the next sibling, extends the child list, descends and stays at its index leaves `Siblings` of the old forest; the result is the number of nodes lost. |
| `Merging.SiblingsAbsorb` | pybootchartgui/process_tree.py:251-261 | Merging the front of a list early, all the way down, does not change the outcome. |
| `Merging.SiblingsSplit` | pybootchartgui/process_tree.py:251-262 | A list may be cut wherever the command changes, and its parts merged one by one. |
| `Merging.TwinGoes` | pybootchartgui/process_tree.py:251-259 | A process whose predecessor in the list has its command is gone afterwards; the first of a list stays first. |
| `Merging.SiblingsKeepsOrder` | pybootchartgui/process_tree.py:256-260 | Processes that are left stand in the order in which they stood, children behind their parent. |
| `Merging.SiblingsKeepsAncestry` | pybootchartgui/process_tree.py:256-260 | Processes that are left stay below all of their ancestors that are left. |
| `Merging.MergedOrder` | pybootchartgui/process_tree.py:286-289 | Where times are equal, the samples of the first process come before those of the second. |
| `Merging.EarlyDescent` | pybootchartgui/process_tree.py:260-264 | Descending into a process before or after all its twins are merged into it makes no difference. |
| `Merging.SiblingsHasNoTwins` | pybootchartgui/process_tree.py:244-265 | Afterwards no two adjacent siblings share a command, at any depth. |
| `Merging.NoTwinsIsFixed` | pybootchartgui/process_tree.py:244-265 | The pass is the identity if and only if there are no such siblings. |
| `Merging.SiblingsIdempotent` | pybootchartgui/process_tree.py:244-265 | A second pass merges nothing. |
| `Merging.SiblingsKeepsContent` | pybootchartgui/process_tree.py:107-123 | For every command the multiset of samples stays the same, sample lists stay time-sorted, and start and end time of the forest do not change. |
| `ProcessTree.ProcessTree.MergeRuns` | pybootchartgui/process_tree.py:267-284 | The loop that takes over the children of an only child of the same command and looks at the same process again leaves `Runs` of the old forest; the result is the number of nodes lost. |
| `Merging.RunsHasNoRuns` | pybootchartgui/process_tree.py:267-284 | Afterwards no only child shares the command of its parent. |
| `Merging.NoRunsIsFixed` | pybootchartgui/process_tree.py:267-284 | The pass is the identity if and only if there is no such child. |
| `Merging.RunsKeepsNoTwins` | pybootchartgui/process_tree.py:244-284 | `merge_runs` keeps the normal form of `merge_siblings`. |
| `Merging.RunsKeepsContent` | pybootchartgui/process_tree.py:267-294 | `merge_runs` conserves samples per command, their order in time, and start and end time. |
| `Merging.RunsKeepsOrder` | pybootchartgui/process_tree.py:275-280 | Processes that are left stand in the order in which they stood. |
| `Merging.RunsKeepsAncestry` | pybootchartgui/process_tree.py:275-280 | Processes that are left stay below all of their ancestors that are left. |
| `ProcessTree.ProcessTree.Reduce` | pybootchartgui/process_tree.py:70-75 | The three passes one after the other leave `Reduce` of the forest on the heap, and their counts add up to the nodes lost. |
| `Merging.ReducedIsNormal` | pybootchartgui/process_tree.py:70-75 | After the three passes all three normal forms hold at once, and another `merge_siblings` or `merge_runs` changes nothing. |
| `Merging.ReducedContent` | pybootchartgui/process_tree.py:70-75 | Samples, start and end time change only through pruning. |
| `Samples.SortSorts` | pybootchartgui/process_tree.py:289 | Sorting by time keeps the samples and puts them in order. |
| `Samples.SortIsStable` | pybootchartgui/process_tree.py:289 | Samples of the same time keep their order. |
| `Build.Build` | pybootchartgui/process_tree.py:85-92 | Appending each process to its parent's child list, in the process list or not, shows a forest with every process whose links reach a root exactly once, no other process, and u above v if and only if links lead from v to u. |
| `Build.GrownIsBuilt` | pybootchartgui/process_tree.py:85-92 | The same of the forest that the parent links describe. |
| `Build.KidsAre` | pybootchartgui/process_tree.py:85-92 | The child lists that build leaves hold exactly the children, in the order of the process list. |
| `OrphanClimb.ClimbFindsNearest` | pybootchartgui/parsing.py:100-117 | The climb returns the nearest ancestor that has an entry, or 0 and there is none. |
| `OrphanClimb.ClimbEndsIff` | pybootchartgui/parsing.py:100-117 | The climb ends if and only if the chain does not circle in front of its first entry. |
| `Compile.RankedEnds` | pybootchartgui/parsing.py:100-117 | On a parent map without circles every climb ends. |
| `Compile.EntriesFact` | pybootchartgui/parsing.py:108 | A kernel pid counts as an entry if and only if pid * 1000 is a key of the process map. |
| `Compile.Compile` | pybootchartgui/parsing.py:118-142 | Every process gets the exe and arguments of its command line record, if there is one; it keeps its parent id if no ancestor has an entry, and otherwise gets that of the nearest one that has; its parent is the entry under its id; its statistics are computed. |
| `Compile.MergeCmdlines` | pybootchartgui/parsing.py:118-127 | Exe and arguments become those of the record of the kernel pid, and stay as they are without one. |
| `Compile.Reparent` | pybootchartgui/parsing.py:129-134 | The loop changes parent ids only: each stays if no ancestor has an entry, and becomes that of the nearest one that has otherwise; all stay without a parent map. |
| `Compile.SetParents` | pybootchartgui/samples.py:130-136 | The parent is the entry under the parent id, or none. |
| `Compile.StitchedIs` | pybootchartgui/parsing.py:129-138 | A process is linked to the entry under its own parent id if no ancestor has an entry, and otherwise to the entry of the nearest ancestor that has one. |
| `Compile.CalcStats` | pybootchartgui/samples.py:109-118 | Start, duration and activity after the call, from the samples and the old start. |
| `Compile.StatsAre` | pybootchartgui/samples.py:110-114 | The start is the earlier of the old one and the first sample, the end one period behind the last sample; without samples both stay. |
| `Compile.ActivityCounts` | pybootchartgui/samples.py:116-118 | The number compared with 2 is that of the samples with load and that of the samples in state D, added up. |
| `Compile.StatsCoverSamples` | pybootchartgui/samples.py:110-114 | All samples lie between the start and one period before the end. |
| `Compile.LinkLowers` | pybootchartgui/parsing.py:131-140 | On data without circles every link that compile leaves goes to init or lower in the order. |
| `Compile.EveryProcessIsPlaced` | pybootchartgui/parsing.py:131-140 | Compiled and built from data without circles, the forest has every process exactly once. |
| `Daemons.GetMaxPid` | pybootchartgui/process_tree.py:125-129 | The recursion over child lists returns the greatest pid of the forest the list shows. |
| `Daemons.MaxPidIs` | pybootchartgui/process_tree.py:125-129 | That number bounds every pid of the forest and is one of them, or is the sentinel. |
| `Daemons.BelowIs` | pybootchartgui/process_tree.py:144 | The child lists below a process that is in no circle show exactly the processes whose links lead to it, whether or not it is in the forest itself. |
| `Daemons.UpdatePpidsForDaemons` | pybootchartgui/process_tree.py:131-153 | Exactly the children of init with a pid between the last rc and the greatest pid below it get rc as parent, and the forest built again is the one of the new links; without an rc nothing changes. |
| `Daemons.LastRcIs` | pybootchartgui/process_tree.py:138-144 | rc is the last process in the list of that name below init, and there is none if there is no such process. |
| `Daemons.NobodyIsLost` | pybootchartgui/process_tree.py:145-153 | On links that come from a log the forest built again has the same processes, and those moved are below rc. |
| `Daemons.LogIsClear` | pybootchartgui/process_tree.py:145-150 | On such links nobody above rc is moved. |
| `Daemons.CompiledIsFromLog` | pybootchartgui/samples.py:130-132 | The links that compile leaves without a parent map are such links. |
| `Daemons.RcStaysIff` | pybootchartgui/process_tree.py:145-153 | On any links, rc still reaches a root if and only if nobody above it is moved. |
| `Daemons.NobodyIsLostIff` | pybootchartgui/process_tree.py:145-153 | On any links, no process drops out of the forest if and only if nobody above rc is moved. |
| `OutputBuffers.StackMap.ChunkAlloc` | collector/output.c:29-55 | A new chunk goes into the next slot; with all slots in use the last one is emptied and handed out again. The chunks of the other slots stay where they are. |
| `OutputBuffers.BufferFile.constructor` | collector/output.c:60-68 | A new stream has a chunk of its own, or the last slot; earlier slots keep their chunks. |
| `OutputBuffers.BufferFile.Append` | collector/output.c:70-82 | The loop leaves the table that `ChunkLog.Append` describes, the chunk in use is not full, and every slot keeps its chunk. |
| `OutputBuffers.BufferFile.Dump` | collector/output.c:86-103 | However read(2) divides the input, the table is that of one append of all that was read; it ends early only on a read error. |
| `OutputBuffers.BufferFile.DumpFrame` | collector/output.c:105-115 | Timestamp, input and newline in three calls make the table of one append. |
| `Streams.Streams.Open` | collector/output.c:60-68 | Opening a stream on the shared table leaves every other stream at its chunk, and the log makes the Open step. |
| `Streams.Streams.Write` | collector/output.c:70-82 | Appending to a stream leaves every other stream at its chunk with room left, and the log makes the Write step. |
| `Streams.Streams.WriteFrame` | collector/output.c:105-115 | A timestamped frame is one Write step of timestamp, input and newline. |
| `Streams.Streams.HasRoom` | collector/output.c:73-81 | After any calls, whatever stream is appended to next has its chunk in the table, and it is not full. |
| `Streams.Streams.ReadBack` | collector/dump.c:175-202 | After any calls, what is read back of each stream of this table is a prefix of what was appended, and all of it under the bound. |
| `ChunkLog.AppendSplit` | collector/output.c:70-82 | Appending a and then b gives the same table as appending both at once. |
| `ChunkLog.AppendUsable` | collector/output.c:79-81 | Between appends the chunk in use is never full. |
| `ChunkLog.StepKeepsValid` | collector/output.c:29-82 | Opening and appending keep the shape of the table, the faithfulness of every stream, and the account of bytes held in chunks. |
| `ChunkLog.DumpIsAPrefix` | collector/dump.c:175-202 | In every run, what is read back of a stream is a prefix of what was appended to it, overflowed or not. |
| `ChunkLog.NothingIsLost` | collector/dump.c:180-199 | While bytes / payload + streams is at most 1023, every stream is read back byte for byte. |
| `ChunkLog.ChunksUsed` | collector/common.h:71-92 | Without overflow a stream uses exactly bytes / payload + 1 chunks. |
| `LiveRuns.StepKeepsInv` | collector/output.c:29-82 | Every memory step of writers and dumper, the two stores of an allocation and the copies of pointers and count included, keeps the invariant that ties slots, lock, pending bytes and the copied table to what was appended. |
| `LiveRuns.RoundIsATurn` | collector/output.c:73-81 | Copy, length, test and allocation by one writer are one turn of the append loop. |
| `LiveRuns.DumpIsVerbatimIff` | collector/dump.c:69-86 | In every run and for every stream, byte number p of its file is byte number p of the stream if and only if the slots copied empty spare it: what is written in their place has no bytes of the stream, and no later chunk of the stream has any if the slot was its own. |
| `LiveRuns.DumpOfBytesIsVerbatimIff` | collector/dump.c:175-202 | When every chunk written to the file had a byte, that is so if and only if no slot copied empty has a chunk of the stream before it in the buffer, or is followed by one if the slot was its own. |
| `LiveRuns.AllVerbatimIff` | collector/dump.c:175-202 | All files are right at once if and only if all streams are spared; when every chunk written had a byte, if and only if no slot was copied empty. |
| `LiveRuns.DumpIsAPrefix` | collector/dump.c:175-202 | The file of a stream that is spared is a prefix of what was appended to it, before and after overflow, whatever became of the other files. |
| `LiveRuns.DumpIsUpToDateIff` | collector/dump.c:175-202 | For a stream that had not overflowed when the count was copied, its file is right and goes as far as could be read then if and only if nothing of it is written for a slot copied empty and no such slot held bytes of it. |
| `LiveRuns.DumpIsUpToDate` | collector/dump.c:175-202 | Under that condition, on this stream alone, the file has every append completed by then, every byte that could be read then, and nothing that was not appended. |
| `LiveGap.DumpRepeatsAChunk` | collector/dump.c:69-86 | For any chunkful of bytes, a run in which no stream is opened once the copy has begun: the listener fills its chunk and allocates the next one between the copies of pointers and count, and its file holds these bytes twice. |
| `DumpedFrames.DumpedFramesParse` | collector/dump.c:175-202 | The dumped file of a stream that is spared parses to complete frames as appended, in order, and at most one damaged one; if it is up to date, every frame that could be read when the count was copied is there. |
| `DumpedFrames.DumpedTaskstatsParse` | pybootchartgui/parsing.py:337-421 | The dumped taskstats file of such a stream, with names without blanks: it fails to parse if and only if it ends behind the fifth blank of a line, and otherwise gives the processes of its complete lines, or those and the next line with a last number that may have lost digits. |
| `PidScanner.Scanner.FindPidAnIdx` | collector/tasks-netlink.c:98-138 | Append, shift-up and doubling leave the table with the pid in its place and the result is its index; without `create`, -1 means that it is absent. |
| `PidScanner.Scanner.InsertPid` | collector/tasks-netlink.c:140-145 | The table afterwards has the pid with this parent and is otherwise the same. |
| `PidScanner.Scanner.InsertPidThread` | collector/tasks-netlink.c:147-165 | The thread is on the list of the pid, once. |
| `PidReplay.ThreadForkInMap` | collector/tasks-netlink.c:147-165 | Seen as a map, the fork of a thread puts it behind the other threads of its process, once, and changes nothing else; a process not known before has no parent. |
| `PidScanner.Scanner.RemovePid` | collector/tasks-netlink.c:167-176 | The table afterwards lacks the pid and is otherwise the same. |
| `PidScanner.Scanner.RemovePidThread` | collector/tasks-netlink.c:178-193 | The thread list afterwards is what the two-index loop makes of it. |
| `PidTable.DropThreadRightIff` | collector/tasks-netlink.c:187-192 | For a listed thread, that loop takes out just this thread if and only if the list has at most one entry. |
| `PidReplay.DropThreadIs` | collector/tasks-netlink.c:187-192 | Of a list of two and more threads the loop leaves as many entries: the second thread everywhere, or the first once and then the second, or the first everywhere, depending on where the thread stood. |
| `PidScanner.Scanner.Restart` | collector/tasks-netlink.c:195-251 | The queue is empty and the table is the replay of all queued events in order. |
| `PidReplay.ReplayThreads` | collector/tasks-netlink.c:213-248 | Without exits of its threads, a process has the threads it had and those forked since its last exit, in order of first mention. |
| `PidReplay.ReplayParent` | collector/tasks-netlink.c:224-227 | The parent of a process is the one that its last fork named, if it has not exited since. |
| `PidScanner.Scanner.Next` | collector/tasks-netlink.c:276-283 | The pid under the cursor, which moves on; 0 at the end. |
| `PidScanner.Scanner.ScanAll` | collector/collector.c:966-973 | Restart and next until 0 yields the pids of the replayed table. |
| `PidTable.ScanIsComplete` | collector/tasks-netlink.c:276-283 | A scan names every process of the table once, in increasing order. |
| `PidTable.ApplyFacts` | collector/tasks-netlink.c:213-248 | Every event keeps the table sorted and changes the set of pids as the event changes the set of processes. |
| `PidTable.ForkInMap` | collector/tasks-netlink.c:224-227 | Seen as a map, a fork sets the parent of one pid and leaves the others. |
| `PidTable.ExitInMap` | collector/tasks-netlink.c:237-239 | Seen as a map, an exit removes one pid and leaves the others. |
| `NetlinkProtocol.StepKeepsInv` | collector/tasks-netlink.c:195-274 | Every step of kernel, listener, scan and main thread keeps: one thread inside the lock, every received event queued, in hand or replayed, in order. |
| `NetlinkProtocol.RestartIsAReplay` | collector/tasks-netlink.c:195-251 | Under every interleaving the table after a restart is the replay, in order, of exactly the events queued before the swap; all later ones are waiting. |
| `NetlinkProtocol.ScanConverges` | collector/tasks-netlink.c:512-521 | A pid listed by its state at any moment after subscription is in the table after a restart if and only if it is alive by the events replayed. |
| `NetlinkProtocol.ScanMatchesNoMoment` | collector/tasks-netlink.c:253-274 | A run whose scanned table is the set of live processes at no moment. |
| `TaskStatsLog.ParseTaskstatsLog` | pybootchartgui/parsing.py:337-421 | From the text of the log, the nested loops compute `Parse` of all lines in order, with the period and bounds of the log; fewer than two blocks give nothing, and a number that is none fails. |
| `TaskStats.ParseIsAllIncarnations` | pybootchartgui/parsing.py:365-386 | With fewer than 1000 renames per pid no incarnation is overwritten: key P * 1000 + i holds incarnation i of P. |
| `TaskStats.KeyRecoversPid` | pybootchartgui/parsing.py:365-367 | key // 1000 is the kernel pid if and only if fewer than 1000 renames lead to the key. |
| `TaskStats.DeltasTelescope` | pybootchartgui/parsing.py:388-412 | For counters that never fall, what all incarnations of a pid recorded adds up to its last reported counters. |
| `TaskStats.OneNameEach` | pybootchartgui/samples.py:97-104 | Later lines keep an incarnation's key, name, parent and start, and only append samples. |
| `TaskStats.RowMeetsItsName` | pybootchartgui/parsing.py:375-383 | A line is recorded with an incarnation of its own name. |
| `ParsedProcs.ProcIsBegun` | pybootchartgui/parsing.py:365-386 | Every incarnation but the stub for init has a line that begins it, and has 1000 times the parent of that line, its time and its name. |
| `ParsedProcs.InitIsBorn` | pybootchartgui/parsing.py:349-352 | The stub for init keeps pid 1, no parent, time 0 and its name, whatever lines follow. |
| `ParsedProcs.LineBegins` | pybootchartgui/parsing.py:369-386 | A line begins an incarnation if and only if the line of the pid before it has another name or there is none. |
| `ParsedProcs.SamplesAreLines` | pybootchartgui/parsing.py:388-412 | An incarnation has one sample for each of its lines whose counters have moved on since the line before, in order, with the time of the line and what they have moved. |
| `ParsedProcs.ParsedIsBegun` | pybootchartgui/parsing.py:361-386 | Whatever the number of renames, every process in the map but the stub for init has the parent, start and name of one line. |
| `ParsedProcs.NameIs` | pybootchartgui/parsing.py:375 | The name is the third token without opening brackets at both ends and then without closing ones at both ends. |
| `ParsedProcs.TextProc` | pybootchartgui/parsing.py:337-421 | From the text of the log: the process under key 1000 * P + i has the parent key, start and name of the line that begins incarnation i of P, its samples are those of its lines, and their state is R if CPU time has passed and D otherwise. |
| `ParsedProcs.TextTimes` | pybootchartgui/parsing.py:414-421 | Start and end are the times of the first and last block, and the period is the mean distance of blocks. |
| `Elision.Collector.GetPidEntry` | collector/collector.c:50-63 | Growing the table changes no entry, and new ones are zero. |
| `Elision.Collector.DumpTaskstat` | collector/collector.c:262-286 | A line is written unless total and parent equal those of the last reading of the pid; it has the fields of the reading, with the parent that PROC_EVENTS knew, or else the one of the kernel; the table remembers the reading. |
| `WrittenLines.DroppedIff` | collector/collector.c:262-267 | A reading is left out if and only if the last reading of its pid has the same kernel parent and the same sum modulo 2^64, or it is the first one and both are zero. |
| `WrittenLines.SignedIs` | collector/collector.c:278-283 | A total is written as the signed 64-bit number of the same bits. |
| `Elision.NoOpIff` | pybootchartgui/parsing.py:355-412 | A line has no effect on the parser if and only if it repeats name and total of the last readable line. |
| `Elision.HarmlessIsEnough` | collector/collector.c:262-270 | If only such lines are left out, every pid has the same incarnations and samples. |
| `Elision.ElisionIsLosslessIff` | collector/collector.c:262-286 | Parsing the written log gives the process map of the full log if and only if every line left out is such a line. |
| `Elision.PlainLogsAreHarmless` | collector/collector.c:262-270 | That is so when names have no blanks, no pid first shows up with zero total and parent, and no process is renamed between equal readings. |
| `Elision.RenameIsLost` | collector/collector.c:266-267 | Two readings that differ in the name alone: the second line is left out and not harmless. |
| `ElidedLog.LineIsRead` | collector/collector.c:278-283 | The line that is written has six tokens if and only if the name has no blank, and is read back with the values written. |
| `WrittenLines.LineInFile` | collector/collector.c:272-283 | The line of a reading in the file has as tokens the pid, the parent that PROC_EVENTS knew or else that of the kernel, the name and the three totals, if the name has no blank, and another number of tokens otherwise. |
| `WrittenLines.KeptAre` | collector/collector.c:262-286 | The log has one line for each reading that is not left out, in order, and each is read as the fields of its reading. |
| `WrittenLines.FileParent` | collector/collector.c:272-283 | In the parsed file, the first process of a pid has as parent 1000 times what PROC_EVENTS knew when its first line was written, or else what the kernel knew, and the time and name of that reading. |
| `ElidedLog.LogIsParsed` | pybootchartgui/parsing.py:337-412 | The file of all turns of the main loop parses to the processes of the lines that were not left out. |
| `ElidedLog.FileIsLosslessIff` | collector/collector.c:262-286 | The processes parsed from the file are those of all readings if and only if every line left out is harmless. |
| `CutLog.CutLineIsRead` | pybootchartgui/parsing.py:355-362 | Of a line cut anywhere, with a name without blanks: it is skipped in front of the fifth blank, is no line right behind it or behind a minus sign there, and is otherwise read with all values as written but the last, which may have lost digits. |
| `CutLog.CutIsRead` | pybootchartgui/parsing.py:337-421 | Any prefix of the file, whatever the names: cut in a time, it gives the complete blocks and an empty one with what is left of the time; cut in a line, it fails exactly if the rest of the line has six tokens and a number among them is none, and otherwise gives the complete lines and what is read of that rest. |
| `CutLog.CutFailsIff` | pybootchartgui/parsing.py:355-362 | With names without blanks, a prefix of the file fails to parse if and only if it ends right behind the fifth blank of a line, or behind the minus sign there. |
| `CutLog.CutCostsOneLine` | pybootchartgui/parsing.py:337-412 | Otherwise it gives the processes of its complete lines that were kept, or those and the next one with a last number that may have lost digits. |
| `CutLog.CutMakesARow` | pybootchartgui/parsing.py:355-362 | A line whose name ends in a blank and a number is skipped, but what is left of it in front of its last blank is read, with that number and the counters in the wrong places. |
| `TimedBlocks.RoundTripIff` | pybootchartgui/parsing.py:266-279 | Parsing the concatenation of written frames gives the frames back if and only if no line is empty. |
| `TimedBlocks.FramesFirst` | pybootchartgui/parsing.py:266-279 | Complete frames are read back unchanged whatever text follows them. |
| `TimedBlocks.PrefixShape` | collector/output.c:105-115 | Any prefix of a log is some complete frames and a part of the next time, or of the next frame as far as some lines and a part of the next one. |
| `TimedBlocks.CutInLines` | pybootchartgui/parsing.py:266-279 | A log cut in the lines of a frame gives the complete frames and a block of the right time, its complete lines and the part of the next one, unless it ends like a block to be skipped. |
| `TimedBlocks.PrefixParses` | pybootchartgui/parsing.py:266-279 | Any prefix of a log parses to exactly its complete frames and at most one damaged block, whose lines are those of the next frame, the last one cut. |
| `TimedBlocks.IterParseTimedBlocks` | pybootchartgui/parsing.py:242-264 | The generator's loop yields `Stream` of the lines. |
| `TimedBlocks.FilterNeverFires` | pybootchartgui/parsing.py:258-264 | No block of stripped lines ends in a line that passes for one ending in " not running" and a newline, so that filter never fires. |
| `TimedBlocks.StreamIff` | pybootchartgui/parsing.py:242-264 | The streaming splitter gives written frames back if and only if every line is trimmed and not empty. |
| `Splitters.BlockFirst` | pybootchartgui/parsing.py:258-279 | On a block of trimmed lines in front, ended by an empty line, both splitters do the same and go on behind it, whatever follows. |
| `Splitters.EmptyLineEndsABlock` | pybootchartgui/parsing.py:258-264 | A frame with an empty line in front of a number streams as two frames. |
| `Splitters.ParsesToNothingIff` | pybootchartgui/parsing.py:278-279 | The whole-file splitter gives no frame for trimmed lines of which the last is empty if and only if all of them are empty. |
| `Splitters.AgreeIff` | pybootchartgui/parsing.py:242-279 | On any trimmed lines of which the last is empty, both splitters give the same if and only if nothing follows the first empty block, or a block in front of it has no time. |
| `Splitters.SplittersAgreeIff` | pybootchartgui/parsing.py:242-279 | The same of written frames with trimmed lines, empty ones included. |
| `CmdlineRecord.DumpArgs` | collector/collector.c:346-370 | The loop that rewrites the buffer while scanning it emits the bytes up to the last zero, newlines counting as zeros. |
| `CmdlineRecord.WrittenBytes` | collector/collector.c:354-370 | Byte by byte, newlines and byte 4095 become zeros, and what stands behind the last zero is left out. |
| `CmdlineRecord.ParseCmdlineLog` | pybootchartgui/parsing.py:631-644 | The loop computes `Parse` of the text. |
| `CmdlineRecord.LogIsHeard` | pybootchartgui/parsing.py:631-644 | Whatever bytes command lines and exe links hold, each record is read by itself. |
| `CmdlineRecord.AllAreHeard` | pybootchartgui/parsing.py:631-644 | With exe links of one line each record is one block, and the last record of a pid counts. |
| `CmdlineRecord.NewlineInExe` | pybootchartgui/parsing.py:634-643 | A newline in the exe link makes what follows it the arguments if it is the only one; at the end of the link, the record is not seen. |
| `CmdlineRecord.PrefixIsHeard` | pybootchartgui/parsing.py:631-644 | Any prefix of a log gives its complete records and at most one damaged one: if its exe is complete, it takes the place of what was known of its pid, with the right exe and the first of its arguments; otherwise it is not seen. |
| `CmdlineRecord.RecordRoundTripIff` | collector/collector.c:329-374 | A record gives back pid, exe and arguments if and only if no newline is in them, the command line fits into 4096 bytes, and neither exe nor first argument begins with a colon. |
| `CmdlineRecord.ParsedIsClean` | pybootchartgui/parsing.py:631-644 | No newline ever comes out of the parser. |
| `CmdlineRecord.ArgsFit` | pybootchartgui/parsing.py:639-641 | The arguments that are read take up no more room than their line. |
| `PidMap.PidMap.WasKnownPid` | collector/tasks.c:24-44 | The answer is whether the pid was asked before, and the set grows by this pid only. |
| `PidMap.Scanner.EmitExec` | collector/tasks.c:212-225 | The callback is called if and only if there is one and the pid is new. |
| `PidMap.OncePerPid` | collector/tasks.c:212-225 | Over a whole run each pid is reported once, in the order of first mention. |
| `Dmesg.DumpDmsg` | collector/dump.c:368-379 | The index-skipping loop stays in bounds and writes what a character-by-character reading of the log gives. |
| `Dmesg.WritesTheTexts` | collector/dump.c:368-379 | For a log of `<level>text` lines the file holds the texts in order, each with one newline, whether or not the last line had one. |
| `Dmesg.WritesTheOutcome` | collector/dump.c:368-379 | For a log of any lines with a newline each, the file holds what stands behind the first `>` of each line that has one, where the first character of a line after a written one is not looked at. |
| `Dmesg.NoLineIsLostIff` | collector/dump.c:368-379 | For a log of any lines with a newline each, the file has no more lines than the log, and as many if and only if each line has a `>` behind its first character, the first line anywhere. |
| `Dmesg.LostWithoutLevel` | collector/dump.c:370-372 | A log of two lines, of which the one without a level is lost. |

## Left out

- LiveRuns.DumpIsAPrefix: after overflow several streams share the last slot; whatever their writers do to that slot is one arbitrary change of it, so races that write beyond its end are not captured.
- LiveRuns.StepKeepsInv: there is a writer for each stream, and streams may be opened at any time, which allows more runs than the two threads of the collector have.
- LiveGap.DumpRepeatsAChunk: if slot 0 is the empty one, the buffer holds whatever was on the stack; the model takes an arbitrary chunk.
- Elision.ElisionIsLosslessIff: times of successive readings of a pid are taken to increase and totals to stay in the signed 64-bit range; names with newlines are not modelled.
- ParsedProcs.TextProc: a pid has at most 1000 incarnations; beyond that keys collide (`TaskStats.KeyRecoversPid`), and only `ParsedProcs.ParsedIsBegun` holds.
- WrittenLines.FileParent: the same bound, and not for pid 1, whose process is there from the start.
- PidReplay.ReplayThreads: exits of threads, each of which does to the list what `PidReplay.DropThreadIs` says.
- TimedBlocks.RoundTripIff: `int()` is modelled for plain digits; signs, blanks and underscores, which it also accepts, never occur in timestamps the collector writes.
- CutLog.CutFailsIff: if some name has a blank, only `CutLog.CutIsRead` holds, which gives the outcome in terms of the tokens that are left.
- Splitters.AgreeIff: logs that do not end in an empty line, as a cut can leave them.
- CmdlineRecord.NewlineInExe: exe links with several newlines; `CmdlineRecord.LogIsHeard` says that they do not touch other records.
- CmdlineRecord.DumpArgs: bytes are characters, without UTF-8 decoding.
- Compile.Compile: the warning for missing parents.
- Daemons.NobodyIsLost: processes made up from kernel messages have no parent and small numbers; they are taken not to be children of init.
- ProcessTree.ProcessTree.Reduce: `merge_logger`, which skips every second child of a logger because it removes from the list it iterates, and `merge_exploders`, whose test is never true.
- `sort`: the order of children for display.
- Identity of Python list objects: a child list is a field of its process, which no two processes share.
- Recursion limits, allocation failure, and the width of C integers other than the 64-bit totals.
- Floating point: times are integers, durations are reals without rounding.
- Stream names longer than 60 characters, which `strncpy` truncates.
- `get_cur_pid` and `get_cur_ppid` of the netlink scanner: they name the process after the one `next` returned, so the parent they give is an input of `ElisionSteps.Reading`.
- Netlink, taskstats and /proc wire formats, sockets, ptrace, mounts and signals: their results are inputs or single steps.
- The other parsers (stat, diskstats, meminfo, ps, pacct, headers, the timing of dmesg), `crop`, load normalisation and throughput ratios: one-step arithmetic or formats.
- Drawing, the user interface, options, shell scripts and unit files.
