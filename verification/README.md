# File-Sync-System: a verified model

This project models the file mirroring system and proves properties of the model. The system has
a manager that watches source directories and starts worker processes; a worker copies a directory
(FULL) or one file (ADDED, MODIFIED, DELETED) to the target directory and prints a report; the
manager reads the reports, keeps a store of directories, a map of watch descriptors and a queue of
tasks for which no worker is free, and obeys commands from a console.

`dafny verify dfyconfig.toml` checks everything.

## Layout

- Text. `CStrings` (NUL-terminated text), `Strtok` (strtok as a cursor that overwrites delimiters,
  section 7.24.5.8 of ISO/IEC 9899:2011), `Decimal` (`number_to_string`).
- Report protocol. `WorkerReport` (the worker's printer), `ReportParser` (the manager's in-place
  parser), `RoundTrip` (printer and parser agree), `Marker` (`is_substring` and the chunk stream).
- Worker. `WorkerProcess`: the four operations on two directories whose system calls may fail.
- Indexes. `LinkedChain` (the nodes of `list_node.c` and `lnode.c`), `ChainTable` (an array of chains
  in place), `KeyedBuckets` (when buckets stand for a map), `StoreModel`/`MemStore` (the directory
  store as a value and as an object), `HashTable` (the watch map), `Queue`, `TaskCode` (tasks as
  queue strings), and `StoreAsWritten`, `HashTableAsWritten` for the departures listed below.
- Manager. `WorkerPool` (the parallel arrays and the scanning loop), `ManagerModel` (both main loops
  as one state machine), `ManagerReports`, `ManagerSafety`, `ManagerSchedule`, `ManagerPasses`,
  `ManagerBooks`, `ManagerStartup`, `ManagerLog`, `ManagerLaws`, `ManagerRuns` (what every run keeps),
  `ManagerConsole` (a small machine the command loop refines), `ManagerObjects`
  (the branches of the loops on the pool, the queue, the store and the watch map in place),
  `ManagerLoop` (iterations of the loops on those objects as runs of the state machine).
- `ListingScript`: what `fss_script.sh` reads out of the log.
- `Mirror`: one watched pair over a whole run, with concurrent workers; `ManagerMirror`: the command loop
  of the manager as such a run.

Nondeterminism stands for what the model cannot see: which system calls fail, how much a read or a
write transfers, the order of `readdir`, how a report is cut into reads, which worker is ready, and
what console and inotify deliver.

## Where the code departs from its intent

The model follows the code. Where the code does not do what its comments, headers or neighbouring
code say, both are there: the code as it is written, with a lemma that says exactly when it meets
the intent, and the repaired form that the other results build on.

| where | as written | exactly when it is right |
|---|---|---|
| `src/fss_manager.c:183`, `:346` | the emptied buffer goes to the slot after the last live one | `WorkerPool.BufferSlotsExactly`: never for all slots; the next dispatch is safe only if the removed slot was the last |
| `src/fss_manager.c:343-359`, `:528` | a task popped in the command loop is not dispatched | `ManagerSchedule.LostExactly`: no task is lost if and only if none was accepted while all slots were busy; `ManagerPasses.LosesATask` is a run that loses one |
| `src/sync_info_mem_store.c:50`, `:74` | add hashes the target, find the source; `hash_code` returns the length | `StoreAsWritten.FindAfterAddExactly`: the lengths agree modulo the capacity, and the add does not overload the table; `LostPair`, `LostInRehash` are lost entries |
| `src/sync_info_mem_store.c:97-104` | the new capacity is the largest listed prime not above the old one, and from the last one on twice an int that large | `StoreAsWritten.NextNeverGrows`: for no capacity; `AddEndsExactly`: an add ends if and only if it does not overload the table, otherwise add and rehash call each other without end, or the doubling overflows |
| `src/sync_info_mem_store.c:69` | remove leaves `size` alone | `StoreAsWritten.RemoveCountedExactly`: the key is not there; `MiscountedRemoval` is a removal after which it is wrong |
| `src/lnode.c:49` | removal compares addresses | `LinkedChain.RemovedByAddressExactly`: the address is that of the first node with the key, or there is none; `KeyElsewhere`: a string of the caller's own removes nothing |
| `src/list_node.c:7-16` | `next` is not stored | `LinkedChain.AddNextAsWritten`: what `malloc` left there is the right pointer |
| `src/list_node.c:26-37` | removal steps past, or through null, behind an unlinked node | `LinkedChain.RemoveAsWrittenExactly`: every match has a non-match behind it; for distinct keys `HashTableAsWritten.RemoveFromChainExactly`: the key is not in the last node; `RemoveAsWrittenFails` and `OnlyPairRemoved` are failures |
| `src/hash_table.c:58` | signed remainder | `HashTableAsWritten.RemoveBucketExactly`: the key is not negative, or the capacity divides it and 2^32; `UnwatchedRemoved`: the key -1 of a failed watch |
| `src/hash_table.c:70-84` | rehash frees nodes with that removal | `HashTableAsWritten.RehashExactly`: the table is empty |
| `src/hash_table.c:99-113` | the walk leaves the list for the last listed size, and above it `2 * a + 1` is no int | `HashTable.FindNextCapacity`: the size is below the last listed one |
| `src/worker_process.c:126` | ADDED truncates the source file | `WorkerProcess.AddFileAsWritten`: the open failed, or the file was there and empty |
| `src/worker_process.c:203`, `:207` | the numeral and its length are arguments of one call | with the length taken first, `WorkerReport.PrintCountLengthFirst`: what the buffer held before is as long as the numeral; the report is modelled in the order lines 211-212 fix |
| `src/fss_manager.c:583-598` | the scanner does not look twice at a character that breaks a match | `Marker.FoundExactly`; `Marker.MarkerMissed` is a text it misses |
| `src/fss_script.sh:67-74` | names are patterns of grep, and any line with the word Monitoring is looked at | `ListingScript.ScriptRightExactly`: no other directory's Monitoring lines, and no Syncing line with the word in a name, match; `ConfusedNames`, `DisturbedName` are names that fail |

The header of `src/sync_info_mem_store.c` names the target directory as the key and
`include/sync_info_mem_store.h` the source directory; find and remove use the source. Buckets that
`malloc` leaves uninitialised on a rehash are modelled as empty.

## Model

| member | source | states |
|---|---|---|
| Strtok.Cursor.Next | src/fss_manager.c:624-662 | one strtok call: the next token of the text that is left, NUL-terminated in the buffer itself; nothing before the saved position and no NUL changes |
| Strtok.NextTokenAt | src/fss_manager.c:630-631 | delimiters, a token and one delimiter are consumed and the token comes back, whatever follows |
| Strtok.HoldsAfter | src/fss_manager.c:630-650 | a token found earlier still reads the same through its pointer after later calls |
| Decimal.NumberToString | src/worker_process.c:291-311 | the buffer reads as the decimal numeral of n, and as nothing for a negative n |
| Decimal.NumeralValue | src/worker_process.c:298-301 | the numeral denotes n and has no leading zero |
| Decimal.IntFitsBuffer | src/worker_process.c:201 | a 32-bit count has at most ten digits, so it fits the 32-byte buffer |
| WorkerReport.PrintReport | src/worker_process.c:183-220 | the writes, each with the byte count the source passes, produce the report text; what its words mean is in `WorkerProcess.FullStatus` and `FileStatus` |
| WorkerReport.DetailsWords | src/worker_process.c:200-214 | the DETAILS text, word for word |
| WorkerReport.PrintCountLengthFirst | src/worker_process.c:202-209 | with the length taken before the numeral is made, the count comes out right if and only if the buffer held as long a text before |
| ReportParser.ExtractWorkersOutput | src/fss_manager.c:622-664 | parsing in place gives, through pointers into the buffer it has cut up, the fields the text calls for; it follows a null pointer exactly when there is an ERRORS label with no line behind it that is the end marker |
| ReportParser.NullDereferenceExactly | src/fss_manager.c:629-662 | the same of the text alone |
| ReportParser.CountErrorsExactly | src/fss_manager.c:654-660 | the line loop runs into the end of the text if and only if no line is the marker |
| ReportParser.CountErrorsInPlace | src/fss_manager.c:655-660 | counts the lines up to the end marker |
| RoundTrip.PrintedIsLines | src/worker_process.c:183-220 | the written pieces are labelled lines |
| RoundTrip.ParseLines | src/fss_manager.c:622-664 | every field, the details with their leading space, and the number of error lines come back, with or without the final newline |
| RoundTrip.RoundTripExactly | src/fss_manager.c:622-664 | a printed report comes back as meant if and only if its three argument fields are non-empty and free of space, colon and newline |
| RoundTrip.DetailsInjective | src/worker_process.c:200-214 | different counters print different DETAILS |
| Marker.IsSubstring | src/fss_manager.c:583-598 | the loop answers what the matching automaton answers |
| Marker.FoundExactly | src/fss_manager.c:583-598 | it answers true exactly for an occurrence that begins while nothing is matched |
| Marker.FoundIsReal | src/fss_manager.c:583-598 | a positive answer is always a real occurrence |
| Marker.CleanOccurrenceFound | src/fss_manager.c:583-598 | an occurrence at the start, or after a character that is not in the pattern, is found |
| Marker.MarkerMissed | src/fss_manager.c:583-598 | a text that contains the marker and is answered false |
| Marker.NewlineBeforeMarker | src/worker_process.c:220 | every report ends with a newline, the marker and a newline |
| Marker.FiresExactly | src/fss_manager.c:144-153 | of a report without the marker in a field, the scanner fires on a prefix exactly when the whole final marker is in it |
| Marker.ChunkingIndependence | src/fss_manager.c:144-158 | for every splitting into reads it fires first on the read that completes the marker, and what is parsed then is the report as meant |
| WorkerProcess.DeleteFile | src/worker_process.c:226-238 | the file is gone if it was there and the call did not fail, and otherwise nothing has changed |
| WorkerProcess.SynchronizeFiles | src/worker_process.c:240-288 | 0 if and only if the source file is there and no call failed or wrote short, and then the target file equals it; a missing file leaves an empty one, a failed call a beginning of the source or nothing new |
| WorkerProcess.AddFileAsWritten | src/worker_process.c:112-132 | ADDED as written: the source survives if and only if its open failed or it was there and empty |
| WorkerProcess.DeleteAll | src/worker_process.c:76-91 | exactly the files whose unlink failed are left, with an error line each, and the others are counted as deleted |
| WorkerProcess.CopyAll | src/worker_process.c:93-108 | every file of the source without a failed call is copied and counted, the others have an error line each |
| WorkerProcess.FullSync | src/worker_process.c:63-110 | for any order of entries: which calls failed decides each counter by itself, each error line and what every file is afterwards; the source is unchanged |
| WorkerProcess.FaultlessFull | src/worker_process.c:63-110 | a FULL has no error line if and only if no call failed, and then it has deleted what there was, copied what there is, and the directories are equal |
| WorkerProcess.MirroredUnlessFailed | src/worker_process.c:63-110 | every name without an error line is in the target exactly as in the source |
| WorkerProcess.FileSync | src/worker_process.c:112-177 | one file's operation works if and only if the file is there and no call fails; what changed, the one counter that moved, and the error line if it failed |
| WorkerProcess.Work | src/worker_process.c:45-224 | a worker from its arguments to its report; an unknown operation gives none |
| WorkerProcess.SuccessMeansEqual | src/worker_process.c:191-193 | a FULL that reports SUCCESS has made the directories equal |
| WorkerProcess.FullStatus | src/worker_process.c:191-199 | of a FULL: SUCCESS if and only if no call failed, ERROR if a directory did not open or every single file failed, PARTIAL if some failed and some did not |
| WorkerProcess.FileStatus | src/worker_process.c:191-199 | of one file's operation: SUCCESS if and only if the file was there and no call failed, otherwise ERROR |
| WorkerProcess.FaultlessReport | src/worker_process.c:183-220 | the whole report text of a FULL without a failed call, from the two directories |
| WorkerProcess.RenderSplits | src/worker_process.c:83-87 | cut at its first colon, an error line gives the file's name and then the message |
| WorkerProcess.FullErrorLines | src/worker_process.c:66-108 | a FULL has one error line for each failed file operation, plus one if a directory did not open |
| LinkedChain.AddNext | src/lnode.c:41-44 | a new node behind the head, the other nodes and values untouched |
| LinkedChain.FindNode | src/lnode.c:68-77 | the first node that matches, or null |
| LinkedChain.RemoveFirst | src/lnode.c:47-58 | the first match is unlinked and no other node |
| LinkedChain.RemoveEvery | src/list_node.c:26-37 | no match is left, and everything else in order |
| LinkedChain.RemoveAsWrittenExactly | src/list_node.c:26-37 | the removal as written is right if and only if every match has a non-match behind it |
| LinkedChain.RemoveAsWrittenFails | src/list_node.c:26-37 | the only node of a chain: null is followed; two matches in a row: the second stays |
| LinkedChain.AddNextAsWritten | src/list_node.c:7-23 | a node with an unset next pointer keeps the chain if and only if the pointer happens to be right |
| LinkedChain.RemovedByAddressExactly | src/lnode.c:47-58 | removal by address removes the entry with the key if and only if it is given that entry's own address |
| LinkedChain.KeyElsewhere | src/lnode.c:47-58 | given an address that is no node's it removes nothing, whichever entry was to go |
| ChainTable.Table.Place | src/sync_info_mem_store.c:52-57 | one bucket gains the value as first or second node, every other bucket is as before |
| StoreModel.RoomAfterRehash | src/sync_info_mem_store.c:90-116 | below the last listed prime, moving to the next one leaves room for the entries that overloaded the old table |
| StoreModel.LoadFactor | src/sync_info_mem_store.c:60 | the test is that size over capacity exceeds 0.9 |
| StoreModel.LookupRefines | src/sync_info_mem_store.c:73-76 | a lookup answers what the map answers |
| StoreModel.AddRefines | src/sync_info_mem_store.c:48-63 | an add under a new key, rehash or not, adds it to the map and nothing else, and keeps the load at most 0.9, as long as an int capacity has room |
| StoreModel.RemoveRefines | src/sync_info_mem_store.c:67-70 | a remove takes the key, and only it, out of the map and keeps the size in step |
| StoreModel.RunRefines | src/sync_info_mem_store.c:48-118 | any run of add, find, update and remove with distinct keys answers as a plain map does, across any number of rehashes |
| MemStore.HashCode | src/sync_info_mem_store.c:121-128 | the code returned is the length of the string |
| MemStore.SyncInfoMemStore.Add | src/sync_info_mem_store.c:48-63 | in place: the table becomes the one `Added` describes; calling rehash and being called by it ends, and an add inside a rehash never starts another |
| MemStore.SyncInfoMemStore.Rehash | src/sync_info_mem_store.c:90-118 | in place: every entry is placed afresh in a table of the next capacity |
| MemStore.SyncInfoMemStore.MoveChain | src/sync_info_mem_store.c:111-115 | one old chain is added entry by entry and emptied |
| MemStore.SyncInfoMemStore.Find | src/sync_info_mem_store.c:73-76 | a pointer to the entry that `Lookup` names, or null |
| MemStore.SyncInfoMemStore.Remove | src/sync_info_mem_store.c:67-70 | in place: the first entry with the key goes and the size follows |
| StoreAsWritten.FindAfterAddExactly | src/sync_info_mem_store.c:48-76 | a new entry is found after its add if and only if the add does not overload the table and the lengths of its two names agree modulo the capacity |
| StoreAsWritten.LostPair | src/sync_info_mem_store.c:48-76 | a pair that is added and not found |
| StoreAsWritten.LostInRehash | src/sync_info_mem_store.c:48-116 | the 174th entry: no depth of add and rehash calling each other is enough |
| StoreAsWritten.NextCapacity | src/sync_info_mem_store.c:91-105 | the capacity loop as written, with the int overflow of the doubling |
| StoreAsWritten.NextNeverGrows | src/sync_info_mem_store.c:91-105 | from the last listed prime on it overflows, below it the result is at most the old capacity |
| StoreAsWritten.AddEndsExactly | src/sync_info_mem_store.c:48-118 | an add ends if and only if it does not overload the table |
| StoreAsWritten.RehashFails | src/sync_info_mem_store.c:90-118 | a rehash overflows from the last listed prime on and otherwise never ends |
| StoreAsWritten.RemoveCountedExactly | src/sync_info_mem_store.c:67-70 | after a remove the size is the number of entries if and only if the key was not there |
| StoreAsWritten.MiscountedRemoval | src/sync_info_mem_store.c:67-70 | an entry added and removed: the size says one, the table is empty |
| HashTable.FindNextCapacity | src/hash_table.c:99-113 | the least listed size above a if and only if a is below the last listed size; for that size the walk leaves the list, and above it the formula overflows |
| HashTable.NoCapacityFrom | src/hash_table.c:99-113 | exactly from the last listed size on neither the list nor the formula has a larger int |
| HashTable.WatchMap.Find | src/hash_table.c:51-54 | the binding of the key, or null if there is none |
| HashTable.WatchMap.Insert | src/hash_table.c:36-47 | binds a new key and never changes an existing binding |
| HashTable.WatchMap.Remove | src/hash_table.c:57-60 | removes the key's binding and no other |
| HashTable.WatchMap.FindKey | src/hash_table.c:86-96 | a key bound to the value, or -1 if no key is |
| HashTable.WatchMap.Rehash | src/hash_table.c:70-84 | below the last listed size: keeps every binding and moves to the least larger listed capacity |
| HashTableAsWritten.RemoveBucketExactly | src/hash_table.c:57-60 | the signed remainder names insert's bucket if and only if the key is not negative or both divide evenly |
| HashTableAsWritten.UnwatchedRemoved | src/hash_table.c:57-60 | for the key -1 it is in front of the array |
| HashTableAsWritten.RemoveFromChainExactly | src/list_node.c:26-37 | on distinct keys the removal as written is right if and only if the key is not in the last node |
| HashTableAsWritten.OnlyPairRemoved | src/list_node.c:26-37 | the only pair of a bucket cannot be removed |
| HashTableAsWritten.RehashExactly | src/hash_table.c:70-84 | the rehash as written survives if and only if the table is empty |
| Queue.ActionQueue.Push | src/queue.c:20-43 | appends to the sequence; the list stays acyclic with the tail last |
| Queue.ActionQueue.Pop | src/queue.c:51-64 | takes the first of the sequence, or gives the empty string; both pointers are null exactly when it is empty |
| Queue.ActionQueue.IsEmpty | src/queue.c:46-48 | true exactly for the empty sequence |
| TaskCode.DecodeEncodeExactly | src/fss_manager.c:556-565 | a task comes back from the queue if and only if no field is empty or has a space or newline |
| TaskCode.DecodeEncodePairExactly | src/fss_manager.c:202-208 | the same for a config pair |
| TaskCode.Split | src/fss_manager.c:356-358 | a popped action is cut apart in a buffer, and the four fields read through pointers once all calls are done are what `Decode` gives |
| TaskCode.SplitPair | src/fss_manager.c:206-208 | the same for the two fields of a config pair |
| WorkerPool.Pool.Dispatch | src/fss_manager.c:248-252 | the worker takes the first free slot, with an empty buffer of its own |
| WorkerPool.Pool.Receive | src/fss_manager.c:145-151 | the chunk is appended to the slot's own buffer and to no other |
| WorkerPool.Pool.TakeReport | src/fss_manager.c:153-171 | the report is parsed in its own buffer and the buffer emptied |
| WorkerPool.Pool.SwapOut | src/fss_manager.c:171-185 | pid, descriptor and buffer of the slot change places with the last live ones; all buffers stay different objects |
| WorkerPool.Pool.ReadReady | src/fss_manager.c:141-190 | the scanning loop, with removals inside it, leaves the workers and reports `Pass` describes |
| WorkerPool.PassAccounts | src/fss_manager.c:143-189 | after a pass each worker is one, and only one, of: unread, read and incomplete, finished with a complete report |
| WorkerPool.PassLeaves | src/fss_manager.c:143-189 | a slot is left with its worker, read, or for a finished one with the worker of the last slot, unread |
| WorkerPool.PassConserves | src/fss_manager.c:143-189 | no worker is lost or doubled by the swaps |
| WorkerPool.BufferSlotsExactly | src/fss_manager.c:181-185 | the buffer move as written: outside the array when all slots are busy, otherwise the next dispatch shares a live buffer if and only if the removed slot was not the last |
| WorkerPool.SharedBuffer | src/fss_manager.c:181-185 | three workers in four slots, the first finishes: the next one gets the buffer of the one moved |
| ManagerReports.ReportIsSane | src/worker_process.c:80-108 | a worker with sane names has a report that parser and scanner handle, with one line per failed operation |
| ManagerReports.FinishIsMeant | src/fss_manager.c:153-168 | the read that completes a report updates the entry of the worker's own source with the status it meant and its number of failed operations, and logs its fields |
| ManagerReports.WorkedIsSane | src/worker_process.c:63-177 | what a worker ends with by its contract has one error line for each failed operation, on a line of its own |
| ManagerSafety.NeverFails | src/fss_manager.c:291-568 | in every reachable state every descriptor handed out is bound and every bound source has an entry, so the error exits, the assert and the dereferences are safe; at most the limit of workers run |
| ManagerSchedule.FirstInFirstOut | src/fss_manager.c:191-261 | started tasks followed by the queue are the accepted tasks, in order, in every reachable state |
| ManagerSchedule.QueuedOnlyWhenBusy | src/fss_manager.c:528-566 | a task is queued only when every slot is busy |
| ManagerSchedule.DrainedExit | src/fss_manager.c:568 | with queue and slots empty, every accepted task has been started and finished, once |
| ManagerSchedule.LostExactly | src/fss_manager.c:343-359 | as written, what the command loop has lost is exactly what it ever queued |
| ManagerPasses.LosesATask | src/fss_manager.c:343-359 | for any two directories added with one worker allowed, a regular run that never starts the second task |
| ManagerPasses.PassIsChunks | src/fss_manager.c:295-341 | a scanning pass of the pool is a run of the state machine's chunk events, with the same reads and the same finished reports |
| ManagerBooks.ErrorAccounting | src/fss_manager.c:160-168 | in every reachable state the entries of a directory together count the failed operations of its finished workers; without a source twice in the config file that is the count of the one entry |
| ManagerBooks.WorkersErrors | src/worker_process.c:80-104 | the same, with the workers held to nothing but their contracts |
| ManagerLog.LogAlternates | src/fss_manager.c:425-447 | for distinct config sources each directory's Monitoring lines alternate from started, and the last one says started exactly when it is active |
| ManagerLog.LogAlternatesExactly | src/fss_manager.c:231-234 | after the startup loop they do so for every directory if and only if no source is in the config file twice |
| ManagerStartup.StartupDecreases | src/fss_manager.c:136-263 | every iteration that is not idle makes a measure smaller, or keeps it and leaves fewer bytes to read |
| ManagerStartup.StartupFinite | src/fss_manager.c:136-263 | with reports of at most n bytes no run has more than (n + 1)(3p + 1) steps of the startup loop that are not idle, p being the number of pairs |
| ManagerStartup.StartupProgresses | src/fss_manager.c:136-263 | while the loop goes on there is something to do that is not idle |
| ManagerLaws.FullsAreAsked | src/fss_manager.c:411-495 | the FULL tasks accepted are, in order, for the directories of the Monitoring started and Syncing lines |
| ManagerLaws.SyncedWhileMonitored | src/fss_manager.c:478-492 | an odd number of a directory's Monitoring lines is before each of its Syncing lines, so no command brings a FULL between a stopped line and the next started one |
| ManagerLaws.SyncObeyedExactly | src/fss_manager.c:467-495 | a sync command is obeyed if and only if an odd number of the directory's Monitoring lines is in the log; the in-workers mark never refuses one |
| ManagerLaws.SyncRefused | src/fss_manager.c:470-480 | an unknown, busy or inactive directory is not synchronised |
| ManagerLaws.ReportsAreLogged | src/fss_manager.c:154-159 | each finished worker has its line in the log, in order |
| ManagerLaws.LineFields | src/fss_manager.c:159 | with every field of its arguments in its place |
| ManagerLaws.FinishedEntry | src/fss_manager.c:160-168 | the completing read changes the entry of the worker's own source: errors, time, status and the in-workers mark |
| ManagerLaws.StatusIsLast | src/fss_manager.c:168 | the status found for a directory is what its last finished worker reported |
| ManagerLaws.StopsWhenTold | src/fss_manager.c:514-568 | the manager stops only after a shutdown command, with nothing queued or running |
| ManagerConsole.EventWatches | src/fss_manager.c:232-233 | exactly the startup dispatches, the add commands for a directory that is not active and the sync commands obeyed watch and bind their directory |
| ManagerConsole.EveryDirectoryIsWatched | src/fss_manager.c:231-245 | if the watch calls worked, every directory in the store has a descriptor of its own, and a search by name finds one |
| ManagerConsole.StartupHandsOver | src/fss_manager.c:136-277 | when the startup loop ends each pair's task has been started in file order, its entry has its target, and a cancel command will find its descriptor |
| ManagerConsole.ConsoleRefines | src/fss_manager.c:356-566 | in every run what is monitored with which target, whose the descriptors are and which tasks there have been is what a machine says that knows only the commands and records |
| ManagerStartup.StartupLeaves | src/fss_manager.c:136-277 | when the loop ends, the store has exactly one entry per pair, active and not in the workers, every task has finished, and resetting the counter changes nothing |
| ListingScript.ScriptRightExactly | src/fss_script.sh:67-74 | the script is right about a directory in every run over these names if and only if its name matches in no other directory's Monitoring line and in no Syncing line with the word Monitoring in a name |
| ListingScript.ScriptRight | src/fss_script.sh:67-74 | for such names the answer is started exactly when the directory is active |
| ListingScript.ConfusedWrong | src/fss_script.sh:70 | for any two names that are confused, a run after which the answer is wrong |
| ListingScript.DisturbedWrong | src/fss_script.sh:70 | for any names with the word Monitoring in a line that matches, a run after which the answer is wrong |
| ListingScript.ConfusedNames | src/fss_script.sh:70 | /a.b and /axb are confused though neither is inside the other; /a and /ab are |
| ListingScript.DisturbedName | src/fss_script.sh:70 | /Monitoring disturbs itself |
| ManagerObjects.Manager.ReadWorker | src/fss_manager.c:142-188 | one slot of the scanning loop, pool and store in place: a complete report's parse has every field and its directory an entry, which takes the status and the errors |
| ManagerObjects.Manager.DispatchPair | src/fss_manager.c:231-252 | watch map, log, store and pool take a started pair |
| ManagerObjects.Manager.PopPair | src/fss_manager.c:191-208 | a queued pair leaves the queue, is cut apart and dispatched |
| ManagerObjects.Manager.ReadConfigPair | src/fss_manager.c:194-261 | a pair read from the config file is dispatched, or pushed when no worker is free |
| ManagerObjects.Manager.PopTask | src/fss_manager.c:356-358 | a queued task leaves the queue, is cut apart and started |
| ManagerObjects.Manager.Submit | src/fss_manager.c:528-566 | a free slot takes the task, otherwise it is pushed |
| ManagerObjects.Manager.Notified | src/fss_manager.c:364-400 | an inotify record becomes a task for the directory its descriptor is bound to; both lookups find something |
| ManagerObjects.Manager.AddDirectory | src/fss_manager.c:412-448 | an add command enters or reactivates the directory, binds its watch and submits a FULL; an active one is left alone |
| ManagerObjects.Manager.SyncDirectory | src/fss_manager.c:467-495 | a sync command submits a FULL for an active directory that is not in the workers |
| ManagerObjects.Manager.CancelDirectory | src/fss_manager.c:496-513 | a cancel command deactivates a watched directory, whose entry is there |
| ManagerLoop.ReadPass | src/fss_manager.c:141-190 | the whole scanning loop on the objects appends the events of a pass to the run |
| ManagerLoop.StartupTurn | src/fss_manager.c:191-261 | the rest of a startup iteration appends its one event |
| ManagerLoop.EndStartup | src/fss_manager.c:263-277 | setting the counter to zero leaves it as it was, and the objects stand for the first state of the command loop |
| ManagerLoop.ServeTurn | src/fss_manager.c:356-566 | the rest of an iteration of the command loop appends its event, if it has one |
| ManagerLoop.StartupContinues | src/fss_manager.c:136 | the startup loop's condition is false exactly when the run can leave it |
| ManagerLoop.ServingContinues | src/fss_manager.c:568 | the loop condition is false exactly when the run can stop: shutdown asked for, queue and pool empty |
| ManagerLoop.AtAnyTime | src/fss_manager.c:136-568 | between iterations the objects agree with each other: order of tasks, error counts found in the store, descriptors bound to directories the store finds, alternating log lines |
| Mirror.MirrorConverges | src/fss_manager.c:388-396 | from equal directories, or any two and a FULL, with FULLs at any time: in every reachable state a file with no task pending is mirrored, and the last task of any other file, if it is not a FULL, is a deletion exactly when the file is gone |
| Mirror.WorkerResult | src/worker_process.c:112-177 | what a worker's contract makes of each file |
| Mirror.QuiescentIsEqual | src/worker_process.c:112-177 | with nothing queued or running the directories are equal |
| Mirror.Drains | src/worker_process.c:112-177 | if the source is left alone the pending tasks can always be finished, and then they are equal |
| ManagerMirror.StepTogether | src/fss_manager.c:356-566 | every step of the command loop on a watched pair, of the source and of the workers keeps the manager's queue and pool in line with the pair's pending tasks |
| ManagerMirror.ManagerMirrors | src/fss_manager.c:356-568 | whenever the manager has no task queued or running and inotify nothing to hand over, target and source are equal |
| Mirror.OutOfOrder | src/worker_process.c:226-288 | a run whose two workers, finishing in the other order, leave the directories different |

## Left out

- Process plumbing: fork, exec, pipes, poll, signals, named pipes, argument parsing, and the exits on failed system calls of the manager itself.
- Raw inotify records and the leftover logic of `src/fss_manager.c:364-381`: a read is one record, and it carries a descriptor inotify handed out (no queue overflow record).
- The console program, user messages, timestamps and the script's listing and purge. Of a log line the timestamp and the pid are left out.
- Real file systems: permissions, subdirectories, symbolic links, one file under two names.
- Allocation failure and freeing. The fixed buffer sizes are preconditions (`WorkerPool.Fits`).
- Commands without their arguments, which strtok would turn into null pointers; `is_in_workers` of an entry made by the add command, which the code leaves unset and the model takes as false.
- Names with a space, colon or newline, or with the end marker inside: `RoundTrip.RoundTripExactly` and `TaskCode.DecodeEncodeExactly` say that they do not survive, and the manager's runs assume none, nor a NUL.
- Config files with a source twice: the refinement of the store to a map, and what builds on it, is for distinct sources; which of two entries a find returns is left open in the others.
- Mirror.MirrorConverges, ManagerMirror.ManagerMirrors: no system call fails that could work, a worker takes effect when it finishes, and workers that concern the same file finish in the order they started; `Mirror.OutOfOrder` shows why the last is needed. The watch is not cancelled.
- ListingScript.ScriptRightExactly: names with a character that the shell, cut or grep treats specially, other than a dot (`ListingScript.SPECIAL`), or with a leading hyphen.
- Tables of more entries than the last listed prime has room for (`StoreModel.MAX_ENTRIES`): the source's capacity is an int and has no larger value.
- ManagerLoop.StartupTurn, ManagerLoop.ServeTurn: one iteration each, under the same assumptions on names and environment as the runs; the loops around them, which poll without end, are the runs.
- ManagerObjects.Manager.PopTask: the popped task is dispatched, where the code as written drops it (`ManagerSchedule.LostExactly`).
- WorkerPool.Pool.SwapOut: the buffer goes to the last live slot, not to the one after it.
- ManagerConsole.ConsoleRefines: for distinct config sources and watch calls that work; a call that fails binds the descriptor -1, which is modelled and not covered by this result.
- WorkerProcess.FileSync: ADDED reads the source only; the truncation is in `WorkerProcess.AddFileAsWritten`.
- LinkedChain.RemoveEvery: after an unlinked node it looks again from the head, where the code would go on from the predecessor; no node before it matches.
