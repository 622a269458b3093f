# libmr in Dafny

libmr runs a MapReduce job as three processes connected by three pipes. Main sends the lines of the input files to the
mapper process; mapper workers emit token/value pairs to the reducer process; the reducer groups the values by token and
its workers emit results back to Main, which writes them to the output file. This project models that pipeline and
proves what it computes and that it always gets there, for every interleaving of processes and threads, every way in
which the kernel cuts up reads and writes, and every capacity of pipes and queues from one up.

How the modules build on each other:

- `Wire`, `Lines`, `Output`: the byte formats, line splitting, and the file format, with their round trips.
- `WireLayout`, `Transcript`: the same said independently of that code: every byte of a message and of a file record;
  the lines of a text, files on the wire, and what a mapper is given.
- `FileIO`, `Protocol`: the read and write loops and the senders and receivers on partial reads and writes.
- `Monitor`, `BoundedQueue`: the bounded closable buffer, as a step system with any number of producers and consumers
  and with spurious wakeups, and as a class over a byte array whose critical sections are the steps of that system.
- `Pool`, `PoolProgress`: N workers over one queue that write whole frames to one pipe under a mutex. The mapper and the
  reducer process are two instances, with lines and token groups as jobs.
- `Hash`, `Grouping`, `HashTable`: djb2 with wrap-around, the chained table as values, and the table on the heap with
  linked nodes and doubling arrays, proved to refine the former.
- `Pipeline`, `PipelineSafety`, `PipelineProgress`: the three processes together, in the order of operations of core.c.
- `PipelineChoices`: that the schedules of that model include every cut a read or write can make and every worker that
  can go on.
- `Handoff`, `HandoffSafety`, `HandoffProgress`, `TableHandoff`: who may touch and who frees each token node, over the
  same monitor and including the failing exits of the reducer; and that the heap table of `HashTable` is a table as
  `Handoff` takes it over.
- `Descriptors`: the tables of open pipe ends during and after set-up, and when end of file is seen.
- `WordCount`, `WordCountPipeline`: the word_count example, alone and on the pipeline.

Main results: a finished run's output is a permutation of the sequential map, group and reduce
(`PipelineSafety.ParallelEqualsSequential`), no run gets stuck and only endless spurious wakeups can prevent it from
ending (`PipelineProgress`), no node is touched after it was freed (`Handoff`), end of file is seen exactly when the one
intended writer is done (`Descriptors`), and word_count shows the table of word counts (`WordCountPipeline`).

Four properties turned out to hold only under a condition, and the condition is proved exact:

- Closing the queue drains it exactly when no producer is past the assertion at the head of a push at that moment,
  because neither a producer that still has to lock the mutex nor one that waits for room looks at `closed` again
  (`Monitor.CloseDrainsIffNoPushInProgress`). libmr closes with its only feeder outside.
- The hash equals djb2 of unbounded integers exactly for table sizes that divide 2^64, as the default 1024 does
  (`Hash.HashIsExactIffSizeDividesWord`).
- Runs of the reducer that have exited touched a freed or pushed node exactly if a push failed after it had stored its
  element (`HandoffSafety.FaultyIffPushStoredAndFailed`), as src/queue.c:72-78 can when `cnd_signal` or `mtx_unlock`
  fails; such runs exist for every table that is not empty (`HandoffProgress.FaultyRunExists`).
- Both children find their pipes at descriptors 0 and 1 exactly when descriptor 0 was taken when `spawn_processes` was
  called (`Descriptors.SetUpWorksIffStdinWasOpen`). As `mr_run` opens its log file first, a caller of `mr_run` gets
  children with their pipes and their log exactly when descriptors 0 and 1 were open
  (`Descriptors.ChildrenWorkIffStandardStreamsOpen`).

Assumptions: size_t has 64 bits and is little-endian, and the line header has seven padding bytes, whose content is
arbitrary. System calls, locks and allocation succeed unless a property says otherwise. User callbacks are deterministic
functions that return 0. isalnum and tolower are those of the C locale. Tokens and file names hold no NUL byte; whether `char` is signed is a parameter. Each stream
comes from the matching sender. Each pool's queue has one feeder and at least one worker. Lengths and counters fit a
size_t, except in the hash, where wrapping is modelled.

## Model

| member | source | states |
|---|---|---|
| `PipelineSafety.StepInv` | src/core.c:389-518 | every step of any process or thread keeps all receivers in step with their senders, all queues and pools sound, and all pairs and results accounted for |
| `PipelineSafety.FinishedRunIsCorrect` | src/core.c:458-518 | after any schedule that ends the run: the received pairs are a permutation of what the mapper emits for all lines; the pushed nodes are one group per distinct emitted token, whose values are a permutation of all values emitted for it; each node is reduced once; the file is the file form of exactly the records of those reductions, and both shared counters are right |
| `PipelineSafety.ParallelEqualsSequential` | src/reducer.c:225-371 | for a reducer that ignores the order of values, every finished run writes the same multiset of records as sequential map, group, reduce |
| `PipelineProgress.NeverStuck` | src/core.c:458-518 | although Main sends everything before it reads anything, no reachable state other than the final one is stuck, for any capacities of at least one; spurious wakeups do not count as steps |
| `PipelineProgress.StepPays` | src/core.c:458-518 | a well-founded measure over bytes, frames, lines, nodes and threads falls with every step other than a spurious wakeup |
| `PipelineProgress.EndlessRunsWakeForEver` | src/queue.c:62-75 | a run can only go on for ever by being woken spuriously again and again |
| `PipelineProgress.CanFinish` | src/core.c:458-518 | every state of every run can be completed to a finished one |
| `PipelineProgress.EveryJobCanFinish` | src/core.c:458-518 | any files, callbacks, thread counts and capacities of at least one have an initial state and a run from it that finishes |
| `PipelineChoices.AnySend` | src/protocol.c:36-53 | Main's write can take any number of bytes that fit into the pipe, and no other |
| `PipelineChoices.AnyMapperRead` | src/protocol.c:567-663 | with bytes to read, the mapper's read can return any number up to the end of the header, name or line it is in, a whole header included, and no other |
| `PipelineChoices.AnyReducerRead` | src/protocol.c:495-545 | the same for the reducer's header, token and value |
| `PipelineChoices.AnyReceive` | src/protocol.c:304-384 | the same for Main's header, token and result |
| `PipelineChoices.AnyMapperWrite` | src/protocol.c:447-481 | a mapper worker's write can take any number of the bytes left of its frame that fit, and no other |
| `PipelineChoices.AnyReducerWrite` | src/protocol.c:411-445 | the same for a reducer worker |
| `PipelineChoices.AnyMapperWorker` | src/mapper.c:83-96 | a mapper worker can step whenever it is not asleep, gone or waiting for the mutex |
| `PipelineChoices.AnyReducerWorker` | src/reducer.c:89-103 | the same for a reducer worker |
| `PipelineChoices.AnyMapperHand` | src/mapper.c:175-184 | the mapper's controller goes on with a push whenever it does not sleep in it, and its signal may wake any sleeping worker |
| `PipelineChoices.AnyReducerHand` | src/reducer.c:316-353 | the same for the reducer's controller |
| `PipelineChoices.WaitsForExit` | src/core.c:506-517 | Main's waits end exactly when the child has exited, and a controller's joins exactly when all its workers have gone |
| `Monitor.StepInv` | src/queue.c:53-135 | the unlocked assertion of push, every critical section and every wakeup, spurious or not, keep capacity, conservation of elements and coverage of sleepers by woken threads |
| `Monitor.NoLostWakeup` | src/queue.c:53-135 | after any schedule, one in which a producer locks the mutex after a close included, elements are neither lost nor duplicated; sleeping consumers imply an open queue with no more elements than woken consumers, sleeping producers no more free slots than woken producers |
| `Monitor.NeverBothBlocked` | src/queue.c:62-75 | producers and consumers are never all blocked together |
| `Monitor.PopReturnsOneOnlyWhenDrained` | src/queue.c:97-100 | pop returns 1 exactly when the queue is closed and everything pushed has been popped |
| `Monitor.CloseDrainsIffNoPushInProgress` | src/queue.c:53-135 | after a close, consumers that have all gone leave nothing behind, in every schedule, if and only if no producer was past the assertion of a push at the close |
| `Monitor.PreemptedPushIsStranded` | src/queue.c:56-70 | the failing case: a producer preempted between assertion and lock has its element stranded in some run of every queue |
| `Monitor.AnythingMayHappen` | src/queue.c:53-135 | no schedule is left out: anybody who waits for nothing may lock next, a signal may wake any sleeper, any sleeper may wake spuriously, a close may come at any time |
| `BoundedQueue.Queue.Push` | src/queue.c:62-71 | the critical section, on an open or closed queue: the byte copy puts the element on top of the stack of elements, changes none below, and is the monitor's step |
| `BoundedQueue.Queue.Pop` | src/queue.c:83-115 | last in, first out: delivers the element on top and leaves the rest; 1 only when closed and empty; is the monitor's step |
| `BoundedQueue.Queue.Close` | src/queue.c:117-135 | closing keeps the elements; is the monitor's step |
| `Pool.StepInv` | src/mapper.c:43-103 | every step of N workers, the feeder and the downstream reader keeps mutual exclusion, frames, order per worker, and the balance of jobs and records |
| `Pool.FramesAreAtomic` | src/mapper.c:43-66 | after any interleaving of partial writes the stream is whole frames and then a prefix of the frame of the mutex owner; each worker's frames keep its emit order; the counter counts whole frames |
| `Pool.OverIsComplete` | src/reducer.c:49-105 | when the workers have gone and the queue is empty, the stream carries exactly the records of the fed jobs and each job was done once |
| `PoolProgress.SomebodyCanStep` | src/mapper.c:83-96 | while there is room downstream, a pool whose workers are not all asleep or gone has a worker that can step |
| `PoolProgress.WorkerStepPays` | src/mapper.c:83-96 | a worker's step lowers the pool's cost, so workers cannot spin |
| `Wire.DecodeInvertsEncode` | src/protocol.h:8-26 | decoding the bytes of any message gives that message back, with empty fields and arbitrary padding |
| `Wire.PrefixKnowsItsEnd` | src/protocol.c:483-550 | from any prefix a receiver knows whether the message is complete, and asks for exactly what is left of the header or field it is in, never for a byte beyond the message |
| `Wire.ReadKeepsStep` | src/protocol.c:15-34 | whatever number of bytes up to the number asked for a read returns, the receiver stays in step, and a completed message is the one sent next |
| `Wire.EndOfStream` | src/protocol.c:501-502 | at end of stream everything sent has been received and nothing is torn |
| `WireLayout.EncodedOnWire` | src/protocol.h:8-26 | every byte of every message: 64-bit lengths lowest byte first, zero and one as end marks, token length before value length, then the fields |
| `WireLayout.WrittenInFile` | src/protocol.c:316-394 | every byte of a record in the output file: each length before its field |
| `Lines.SplitIsLossless` | src/protocol.c:104-127 | no sent line holds a newline, and joining the lines, with a last newline exactly if there was one, rebuilds the content |
| `Transcript.LinesOfText` | src/protocol.c:104-127 | a text has exactly one list of lines, only the last of which may lack its newline and then is not empty; it is the list that is sent |
| `Transcript.FilesOnWire` | src/protocol.c:65-159 | the messages Main may send are exactly, for each file in order, its name, its lines and one end mark, with any padding; empty files included |
| `Transcript.GivenOnce` | src/protocol.c:644-665 | what the mapper is to be given is determined: each file's lines in order with its name, numbered from 1 |
| `Transcript.WireIsUnderstood` | src/protocol.c:567-669 | from any files on the wire the receiver's state machine delivers exactly those lines, always expecting the header that comes |
| `Lines.Understood` | src/protocol.c:567-669 | for any files, empty ones and empty lines included, and any padding, the receiver's state machine delivers exactly the lines with names and numbers from 1 per file, always expecting the header that comes |
| `FileIO.ReadN` | src/protocol.c:15-34 | fills the buffer unless the stream ends first, consuming exactly what it delivers, for any cuts |
| `FileIO.WriteN` | src/protocol.c:36-53 | everything is written once and in order, for any cuts |
| `Protocol.SendRecord` | src/protocol.c:411-481 | appends exactly one encoded record to the stream |
| `Protocol.ReceiveRecord` | src/protocol.c:483-550 | returns the record sent next and consumes exactly its bytes; end of stream exactly after the last one |
| `Protocol.ReceiveOutput` | src/protocol.c:302-396 | rewrites the results from wire form to file form so that the file decodes to the results received |
| `Protocol.SendFile` | src/protocol.c:65-159 | sends the file's name, its lines in order, and one end mark, also for an empty file |
| `Protocol.SendFiles` | src/protocol.c:191-238 | sends every file, one after the other, none left out |
| `Protocol.LineReceiver.Receive` | src/protocol.c:567-669 | returns the next line still to be delivered and leaves the state and the stream ready for the rest; reports end only when no line is left; terminates |
| `Protocol.ReceiveAllLines` | src/protocol.c:567-669 | on the bytes of files on the wire, repeated receives return exactly each file's lines in order, with its name and numbered from 1, and then end of stream |
| `Output.FileRoundTrip` | src/protocol.c:316-394 | the file format is unambiguous: reading back any written sequence of records gives that sequence |
| `Hash.HashFunction` | src/reducer.c:115-121 | the accumulator loop computes the bucket where the token belongs: djb2 in closed form over char values that are signed or unsigned and hold their byte modulo 256, reduced to an unsigned long, modulo the size |
| `Hash.BelongsOnce` | src/reducer.c:115-121 | a token belongs to exactly one bucket |
| `Hash.KnownBuckets` | src/reducer.c:115-121 | "a" belongs to bucket 518 of 1024, and the two bytes of an accented e to 528 where char is signed and 16 where it is not |
| `Hash.HashIsExactIffSizeDividesWord` | src/reducer.c:115-121 | the bucket of every token is djb2 of unbounded integers modulo the table size if and only if the size divides 2^64, for signed and unsigned char |
| `Hash.DefaultSizeIsExact` | include/config.h:36-39 | so it is for the default table size |
| `Grouping.TableGroups` | src/reducer.c:126-176 | after any pairs, each chain holds exactly the tokens that belong to its bucket by the hash, each once, each with exactly its values; for sizes that divide 2^64 the bucket is djb2 modulo the size |
| `Grouping.ValuesInOrder` | src/reducer.c:225-248 | the values of a token are the payloads of its pairs in the order in which those arrived |
| `Grouping.CountsAddUp` | src/reducer.c:225-248 | the node counts add up to pairs_received |
| `Grouping.NodesAreGroups` | src/reducer.c:316-353 | the nodes met by the push loop are one group per distinct token of the whole table |
| `Grouping.GroupByGroups` | src/reducer.c:225-248 | the sequential grouping used as reference has the same specification |
| `Grouping.ReductionIgnoresArrivalOrder` | src/reducer.c:85-89 | grouping and reducing two arrival orders of the same pairs gives the same results if the reducer ignores the order of values |
| `HashTable.GrowthIsAmortised` | src/reducer.c:159-176 | after n appends the capacity is 8 times a power of two, at least n and at most max(8, 2(n-1)), and all reallocations together moved at most 2n elements |
| `HashTable.Node.AddValue` | src/reducer.c:159-176 | appends the value, keeps the earlier ones, and keeps the growth schedule |
| `HashTable.Table.FindOrCreate` | src/reducer.c:126-154 | returns the token's only node, or a new empty one at the head of the bucket where the token belongs by its hash, leaving everything else unchanged |
| `HashTable.Table.Add` | src/reducer.c:225-248 | one turn of the collection loop on the heap is one insertion on the value-level table |
| `HashTable.Collect` | src/reducer.c:225-248 | from the bytes of the pipe to end of stream: the heap table means exactly the groups of the pairs sent, and its counts add up to pairs_received |
| `TableHandoff.TableIsHandedOff` | src/reducer.c:316-353 | numbering the nodes of a valid heap table in walk order turns its buckets and next pointers into the well-formed lists that the hand-off starts from, and that order is the order of the groups of the whole table |
| `HandoffSafety.StepOrderly` | src/reducer.c:281-371 | every step of controller and workers, failing or not, leaves pointers, threads and queue where the code takes them to be |
| `HandoffSafety.AnythingMayHappen` | src/reducer.c:250-353 | no failure and no schedule is left out: each failure may happen wherever the code can fail, any worker may go on, a signal may wake any sleeper |
| `HandoffSafety.StepInv` | src/reducer.c:316-353 | every step keeps: each node has one owner and what an owner has is still allocated; or a failing push has stored its element, and then the node it shares is bound to be touched wrongly |
| `HandoffSafety.NobodyTouchesFreedNodes` | src/reducer.c:85-105 | no schedule makes anybody touch a freed node or the controller touch a node it has pushed, on the successful path and on the collection-error, thread-creation-failure and push-failure exits |
| `HandoffSafety.EveryTouchIsLegal` | src/reducer.c:85-105 | the same without the flag: whoever is about to read or free a node finds it allocated, and the controller finds it not pushed |
| `HandoffSafety.FaultMeans` | src/reducer.c:85-105 | the flag is set exactly by such accesses |
| `HandoffSafety.FaultyIffPushStoredAndFailed` | src/queue.c:72-78 | the proviso is exact: exited runs with such an access are those in which a failing push had stored its element |
| `HandoffProgress.FaultyRunExists` | src/reducer.c:323-351 | for every table with a node such a run exists and reaches the failing exit |
| `HandoffProgress.FailingRunExists` | src/reducer.c:250-351 | runs through each other failing exit exist: set-up or collection, thread creation, and, if there is a node, a push that does not store; they free every node once |
| `HandoffSafety.EachNodeFreedOnce` | src/reducer.c:250-353 | at every exit each node has been freed exactly once and the pushed ones were reduced exactly once; at the successful exit all were pushed, in the order of the walk |
| `HandoffProgress.SuccessfulRunExists` | src/reducer.c:316-371 | for every table some run pushes, reduces and frees every node once and exits successfully |
| `HandoffProgress.NeverStuck` | src/reducer.c:281-360 | before the exit somebody can always take a step that is neither a failure nor a spurious wakeup, on the successful path and on every failing exit, also after a push that failed to signal: no wakeup of controller or workers is lost for good |
| `HandoffProgress.ReachesExit` | src/reducer.c:281-371 | every state of every run, failed pushes included, can be completed to an exit |
| `HandoffProgress.RunsEnd` | src/reducer.c:281-371 | any run, failed pushes included, is no longer than a bound given by nodes, buckets and workers, plus two steps for each spurious wakeup |
| `Descriptors.SetUpWorksIffUsable` | src/core.c:80-156 | closing and duplicating put both children's pipe ends at descriptors 0 and 1 if and only if no kept end sits where another is to go |
| `Descriptors.SetUpWorksIffStdinWasOpen` | src/core.c:389-407 | with pipe(2) handing out the lowest free numbers, so it is if and only if descriptor 0 was taken when spawn_processes was called |
| `Descriptors.MapperLosesItsInput` | src/core.c:127-137 | the failing case: otherwise the mapper is left without any descriptor 0 |
| `Descriptors.ChildrenWorkIffStandardStreamsOpen` | src/core.c:520-535 | counting the log file, which mr_run opens before the pipes: both children have their pipes at 0 and 1 and still have their log if and only if descriptors 0 and 1 were open when mr_run was called |
| `Descriptors.OneWriterOneReader` | src/core.c:198-281 | once set-up is done, each end of each pipe is open at exactly one descriptor of the intended process, as long as that process keeps it, and nowhere else |
| `Descriptors.EofIffWriterDone` | src/core.c:471-504 | a reader sees end of file exactly when its one writer has closed its end or exited |
| `Descriptors.EofIsNotPremature` | src/core.c:78-160 | also during set-up no reader sees end of file before its writer is done |
| `Descriptors.WritersHaveReaders` | src/core.c:389-481 | at every point whoever is still to write has an open reader |
| `Descriptors.EndsInUse` | src/core.c:458-498 | whoever sends holds the write end, whoever reads to the end holds the read end, the children at 0 and 1 |
| `Descriptors.WaitsFor` | src/core.c:458-518 | a process waits for nothing but the close of the last write end anywhere, in a read loop, or the exit of the child, in a wait |
| `Descriptors.MainReapsBoth` | src/core.c:506-517 | when Main is done both children have exited and Main has waited for each |
| `Descriptors.CallsSucceed` | src/core.c:78-281 | no close and no dup2 of any process meets a closed descriptor |
| `Descriptors.NeverStuck` | src/core.c:430-518 | end of file travels down the pipeline until Main has waited for both children |
| `WordCount.Tokenise` | examples/word_count/main.c:13-54 | the emitted pairs are, in order, exactly the maximal alphanumeric runs of the line, each with its capitals replaced by small letters, nothing else changed, and an empty value; every alphanumeric position lies in one |
| `WordCount.AlphanumericsAre` | examples/word_count/main.c:23-41 | the alphanumerics are the ten digits and the 52 letters, and each capital goes to its own small letter |
| `WordCount.CaseDoesNotMatter` | examples/word_count/main.c:40-42 | lines that differ only in letter case give the same pairs |
| `WordCount.RunsAreTheMaximalRuns` | examples/word_count/main.c:21-33 | the specification function meets the definition of maximal runs |
| `WordCount.EmittedOncePerOccurrence` | examples/word_count/main.c:13-54 | over any lines, a word is emitted once for each maximal run that is this word once its capitals are made small |
| `WordCount.PrintResults` | examples/word_count/main.c:73-115 | shows one line per whole record of any file, in order, with its count, and one more exactly for a last record whose result is of unknown size and cut short |
| `WordCountPipeline.WordCountIsCorrect` | examples/word_count/main.c:13-68 | in every finished run no word appears twice in the output, and exactly the occurring words appear, each with its number of occurrences over all lines of all files |
| `WordCountPipeline.WordCountIsSequential` | examples/word_count/main.c:61-68 | the reducer of word_count ignores the order of values, so every finished run writes what the sequential program would |
| `WordCountPipeline.CountsAddUpToPairs` | examples/word_count/main.c:61-68 | the counts in the output add up to the number of pairs emitted |
| `WordCountPipeline.PrintWordCounts` | examples/word_count/main.c:73-115 | print_results on the output of any finished run shows exactly the occurring words, each once, with its number of occurrences |

## Left out

- BoundedQueue.Queue.Push: one critical section between two waits; the waiting and signalling are `Monitor`'s, of which
  it is proved to be a step. The same holds for `BoundedQueue.Queue.Pop` and `BoundedQueue.Queue.Close`.
- Protocol.ReceiveOutput: writes a record's four parts to the file as each record is complete, where the source writes
  each part as soon as it is read; with successful calls the file is the same.
- HashTable.Table.FindOrCreate: a heap class cannot express `free`; what is freed when, and by whom, is in `Handoff`,
  which knows the nodes by number; `TableHandoff` says that the numbered table is this one.
- WordCount.PrintResults: a result length of 2^63 or more, which `fseek` would take as negative, is taken as too long
  for the file; no file of a feasible size has one.
- WordCountPipeline.PrintWordCounts: assumes that each count fits a size_t.
- WordCountPipeline.CountsAddUpToPairs: assumes that the total fits a size_t, as the counter of the mapper does.
- Creation of worker threads one by one in the whole-pipeline model: the mapper's exist from the start, the reducer's
  from the end of collection. `Handoff` creates them one by one, and has the exit for a creation that fails.
- Truncated or malformed streams, which the receivers meet with assertions or not at all.
- The branch of the mapper's controller for a failing push, whose `break` leaves only the macro's own loop.
- Failures of close, join and pop, of `cnd_wait` other than in the reducer's push, and user callbacks that return -1:
  they end a worker or a process with work undone.
- Real fork, signals, waitpid status and the error clean-up blocks of core.c; failing allocation other than at the exits
  that `Handoff` models; overflow of lengths and counters.
- Directory scanning and stat: the model starts from the ordered list of files.
- Logging but for the descriptor of its file (its semaphore is taken to keep none), attribute setters, and creation
  and destruction of the job object: they do not affect results.
