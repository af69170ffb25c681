# Verification of the core of coreutils

This project models the parts of the utilities in which something is computed by more than one
thread, in more than one pass or by a loop that stands for a recursion, and proves what they
compute.

* **`sort`** (`Sequences`, `Bytes`, `Lines`, `Merging`, `SortJobs`, `SortedChunks`, `Pool`, `SortSystem` and the
  modules on top of it).  The external merge sort is a step system: the program counter of the main
  thread, the unread input, the batch being built, the bounded channel, the workers, the shared
  vector of chunks and the written output, with main steps and worker steps interleaved freely.
  The chunks, the heap and the three merge loops are also there as classes and methods, proved
  against the specification that the step system uses.
* **the thread pool** (`Pool`).  In the source the guard of the mutex lives until the end of the
  loop body, so jobs run one at a time.  The step system also allows the lock to be released right
  after `recv`; all invariants are proved of that larger system, and what the long-lived guard adds
  (jobs end in the order of submission) is stated separately.
* **the chunk splitter and `wc`** (`ChunkedReader`, `Utf8`, `WordCount`).  A read returns any
  number of bytes that fit.  UTF-8 is that of section 4 of RFC 3629.
* **`du`** (`DiskUsage`), **`tail`** (`Tail`) and the position of **`less`** (`Pager`).

## Results to know about

`sort` is not sure to sort in every case.  The driver submits an empty batch when the input ends at the start of
an iteration, and when an iteration starts with `bytes == buffer_size`; the comment at
`src/bin/sort.rs:160` says that a chunk without a head does not occur, but an empty batch makes one.
`Ord` calls it equal to every chunk and `limit` is `None` beside it, so a chunk may be written out
whole too early.  `SortExact.SortsIff` says for all inputs and options when every run sorts: when no
batch of the plan (a function of the input and the options alone) is empty, or one batch holds all
lines, or all lines are the same.  `SortExact.SureWithLargeBuffer` puts this in numbers for a buffer
larger than the input, which is the default, and `SortExact.UnsortedExample` is a two-line input.
That no line is lost or invented, that no batch is ever in two jobs, and that the program ends, needs
no such condition.

`BinaryHeap` is taken by contract: a popped or shown chunk is one of least head when every chunk of
the heap has a head, and any chunk otherwise.  So "a run exists whose output is not sorted" means: for
some choice that this contract leaves open.  Which choice a heap makes depends on how it moves its
chunks, and that is not modelled.  The statements about all runs do not depend on what a heap does once
a chunk without a head has been in it: they are about heaps without one, or about results that are the
same for every choice.

`wc` calls the bytes 9 to 14 whitespace, so a space does not end a word; the model follows the code.
The totals of `wc -c` and `wc -l` are too large by one for every input that is empty, has no final
newline, has it exactly at the end of a full buffer, or ends in a bail (`WordCount.ExcessCases`); with
`-w` or `-m` other newlines are left out (`WordCount.WcAllTotals`).

The two versions of `tail` agree exactly on what `Tail.VersionsAgreeIff` says.  On a file without a
final newline the file version prints one line more than it was asked for: it counts newlines, and the
incomplete line is on top of the last N complete ones (`Tail.FilePrintsOneMore`).

## Model

| member | source | states |
|---|---|---|
| Bytes.LeqReflexive | src/bin/sort.rs:156-162 | The order of lines is reflexive. |
| Bytes.LeqTotal | src/bin/sort.rs:156-162 | Any two lines are comparable. |
| Bytes.LeqAntisymmetric | src/bin/sort.rs:156-162 | Lines that are below each other are equal. |
| Bytes.LeqTransitive | src/bin/sort.rs:156-162 | The order of lines is transitive. |
| Bytes.LeqIff | src/bin/sort.rs:156-162 | A line comes before another if and only if it is a prefix of it or has the smaller byte at the first place where they differ. |
| Bytes.SortedUnique | src/bin/sort.rs:186-190 | Two sorted sequences of the same lines are the same sequence, so there is one sorted output. |
| Bytes.SortLines | src/bin/sort.rs:186-190 | The reference sort returns a permutation of its input. |
| Bytes.SortLinesSorted | src/bin/sort.rs:186-190 | ... and a sorted one. |
| Lines.SplitNewlineFree | src/bin/sort.rs:375 | No line that splitting on newlines yields contains a newline. |
| Lines.SplitAtNewline | src/bin/sort.rs:375 | Up to the first byte 10 there is a line, after it the lines of the rest; bytes without one are a line; nothing has no line. |
| Lines.SplitConcat | src/bin/sort.rs:375 | The lines of two texts in a row, the first one complete, are the lines of both. |
| Lines.SplitUnlines | src/bin/sort.rs:235-260 | Writing newline-free lines, empty ones included, each with a newline and splitting again gives the same lines. |
| Lines.UnlinesSplit | src/bin/sort.rs:375 | Splitting and writing again gives the same bytes, up to the newline that an incomplete last line gains. |
| Merging.CutAt | src/bin/sort.rs:131-144 | Draining to a limit takes the head and then exactly the run of lines that are not above the limit. |
| Merging.TopExists | src/bin/sort.rs:202-203 | Every non-empty heap can show some chunk; without an empty chunk, one of least head. |
| Merging.AfterShrinks | src/bin/sort.rs:202-218 | One turn of a merge loop makes lines plus chunks smaller and only moves lines from the heap to the output. |
| Merging.MergeTotal | src/bin/sort.rs:496-507 | A merge loop gets to its end from every heap, empty chunks or not. |
| Merging.MergeConserves | src/bin/sort.rs:496-507 | Whatever the heap picks, the output has exactly the lines of the chunks, each as often. |
| Merging.AfterKeepsGood | src/bin/sort.rs:212-214 | Only non-empty chunks are pushed back, and pieces of sorted chunks are sorted. |
| Merging.EmittedBelowRest | src/bin/sort.rs:202-218 | From sorted, non-empty chunks, every line of an emitted run is at or before every line left in the heap. |
| Merging.MergeSorts | src/bin/sort.rs:496-507 | From sorted, non-empty chunks every run of a merge loop is sorted. |
| Merging.MinMergeSorts | src/bin/sort.rs:202-218 | The reference merge, one least line at a time, sorts the lines of the chunks. |
| Merging.MergeIsMinMerge | src/bin/sort.rs:131-144 | Emitting whole runs up to the limit gives the very sequence of the one-line-at-a-time merge. |
| Merging.UnsortedStays | src/bin/sort.rs:496-507 | When some chunk is not sorted, no run of a merge loop is sorted. |
| Merging.UnsafeMayFail | src/bin/sort.rs:156-162 | With an empty chunk in the heap beside two chunks with lines that are not all the same, some run of the merge loop is not sorted, for some choice that the contract of the heap leaves open. |
| Merging.MergeSortedIff | src/bin/sort.rs:156-162 | All runs of a merge loop are sorted if and only if the chunks are sorted and either none is empty, or at most one is not, or all lines are the same. |
| SortedChunks.LineIterator.Advance | src/bin/sort.rs:64-73 | Reading from memory or from a file gives the lines one by one, and none once there are none left. |
| SortedChunks.SortedChunk.New | src/bin/sort.rs:92-104 | A chunk of lines holds these lines, with the first one as its head. |
| SortedChunks.SortedChunk.FromFile | src/bin/sort.rs:254-260 | A chunk over a file holds the lines of the file and counts as merged and flushed. |
| SortedChunks.SortedChunk.Next | src/bin/sort.rs:82-89 | The head is given away and the rest is what the chunk holds. |
| SortedChunks.SortedChunk.Drain | src/bin/sort.rs:122-129 | All lines are written, each with a newline, and the chunk is empty. |
| SortedChunks.SortedChunk.DrainUntil | src/bin/sort.rs:131-144 | Exactly the lines up to the limit leave, in order, and are written; true is returned exactly when the chunk is used up. |
| SortedChunks.SortedChunk.TakeUntil | src/bin/sort.rs:205-210 | The same lines leave into a vector. |
| SortedChunks.SortedChunk.TakeAll | src/bin/sort.rs:216 | All lines leave into a vector. |
| SortedChunks.BinaryHeap.Pop | src/bin/sort.rs:202 | One chunk is removed; it has a least head when no chunk is empty. |
| SortedChunks.BinaryHeap.Peek | src/bin/sort.rs:203 | A chunk is shown; it has a least head when no chunk is empty. |
| SortedChunks.BinaryHeap.Push | src/bin/sort.rs:213 | The chunk is added. |
| SortedChunks.PopWithLimit | src/bin/sort.rs:202-203 | The popped chunk and the limit that the heap then shows fix how many lines the turn emits. |
| SortedChunks.PushBack | src/bin/sort.rs:246-248 | A chunk goes back exactly when it is not used up. |
| SortedChunks.WriteStep | src/bin/sort.rs:238-249 | One turn of the writing loop is one step of the specification. |
| SortedChunks.TakeStep | src/bin/sort.rs:202-218 | One turn of the in-memory loop is one step of the specification. |
| SortedChunks.MergeInto | src/bin/sort.rs:496-507 | The writing loop ends, and what it wrote is a run of the merge specification on the chunks. |
| SortedChunks.MergeToVec | src/bin/sort.rs:198-218 | The in-memory loop ends, and its vector is a run of the merge specification on the chunks. |
| SortedChunks.RunSort | src/bin/sort.rs:186-190 | The job pushes one chunk, the sorted batch. |
| SortedChunks.RunMerge | src/bin/sort.rs:198-223 | The job pushes one merged chunk that the specification allows for its chunks. |
| SortedChunks.RunMergeFlush | src/bin/sort.rs:231-262 | The same through a temporary file, and the chunk is flushed. |
| SortJobs.Regroup | src/bin/sort.rs:425-459 | Merged and flushed chunks go back in order; the others are handed out in order, in jobs of five and one job for the remainder. |
| SortJobs.KeptOrTaken | src/bin/sort.rs:432-435 | A chunk that was merged or flushed stays, any other is taken. |
| SortJobs.KeptConcat | src/bin/sort.rs:429-448 | Chunks are kept or taken one by one, and their order stays. |
| SortJobs.GroupsOfFive | src/bin/sort.rs:435-456 | Job n holds the taken chunks from number 5 n on, five of them or what is left, and all jobs flush or none does. |
| Pool.NewInv | src/executor.rs:34-52 | A pool starts within the invariant. |
| Pool.SubmitInv | src/executor.rs:55-57 | Sending to a channel that is not full keeps the invariant, and with it the bound on the channel. |
| Pool.CloseInv | src/executor.rs:65 | Dropping the sender keeps the invariant. |
| Pool.WorkerNextInv | src/executor.rs:44-46 | Every step of a worker keeps the invariant and uses up work; with the lock held as written also that jobs run one at a time. |
| Pool.JoinedMeansDone | src/executor.rs:60-70 | When all workers have left, nothing is queued or running and every job sent was run exactly once. |
| Pool.WorkersProgress | src/executor.rs:44-46 | While a job is queued, or the sender is gone and a worker is left, some worker can step. |
| Pool.ClientStep | src/executor.rs:55-70 | Every step of a client that submits its jobs and finishes, or of a worker, keeps the invariant and leaves less to do. |
| Pool.RunInvariant | src/executor.rs:34-70 | Along every run, jobs leave the channel in order, each job taken is running or was run once, the channel holds at most `size` jobs, and the run is no longer than the work at its start. |
| Pool.NoDeadlock | src/executor.rs:34-70 | No run is stuck before `finish` has returned. |
| Pool.FinishedRun | src/executor.rs:60-88 | When `finish` has returned every job was run exactly once; with the lock held as written, in the order of submission, as the synchronous executor does. |
| SortSystem.WrittenIsLiberal | src/executor.rs:44 | A run in which the lock is held while a job runs is a run of the system in which it may be released early. |
| SortSystem.InputLinesOf | src/bin/sort.rs:365-377 | The lines of one input are those it is split into, and the lines of several inputs are those of all of them in order. |
| SortSystem.NextControl | src/bin/sort.rs:398-477 | Every step keeps the driver variables, the pool and the program counter in agreement, `bytes` within the buffer and `batches` within five at the loop head. |
| SortSystem.InductiveHolds | src/bin/sort.rs:398-507 | What holds at a state and is kept by every step holds in all states reached from it. |
| SortConservation.RegroupOccurs | src/bin/sort.rs:425-459 | Regrouping keeps or hands out every chunk once. |
| SortConservation.GroupsOccur | src/bin/sort.rs:435-456 | The merge jobs together hold exactly the chunks that were taken. |
| SortConservation.ResultFree | src/bin/sort.rs:186-262 | Running a job keeps its lines newline-free, and flushing changes nothing about what a merge may produce. |
| SortConservation.ResultOccurs | src/bin/sort.rs:186-262 | The chunk of a finished job holds each line as often as the job did. |
| SortConservation.FlushIsMerge | src/bin/sort.rs:198-262 | A flushing merge and an in-memory merge of the same chunks can produce the same lines, and no others. |
| SortConservation.NextKeeps | src/bin/sort.rs:398-507 | Every step of every interleaving keeps the number of occurrences of every line, and newline-freeness. |
| SortPlan.SubmitBatches | src/bin/sort.rs:398-477 | The batching loop ends, although an iteration may read no line, and submits exactly the batches of the plan. |
| SortPlan.NextPlanned | src/bin/sort.rs:398-477 | In every interleaving the batches sent so far and those still to come are the plan. |
| SortPlan.ReadsWhileRoom | src/bin/sort.rs:402-411 | Lines are read into a batch as long as it is smaller than the batch size and `bytes` below the buffer size. |
| SortPlan.BatchIsGreedy | src/bin/sort.rs:398-476 | Each batch of the plan is what that loop reads; it is the last one exactly when the input ended before the room did, and else `bytes` and `batches` go on, or start anew above the buffer size or above five batches. |
| SortPlan.BytesOfLines | src/bin/sort.rs:404 | What `bytes` adds up is the length of the lines as written, less one newline for each. |
| SortPlan.PlanCutsInput | src/bin/sort.rs:398-420 | The batches cut the input into consecutive pieces no longer than the batch size. |
| SortPlan.EmptyBatchIff | src/bin/sort.rs:398-420 | With a buffer larger than the input, some batch is empty if and only if the number of lines is a multiple of the batch size. |
| SortPlan.OneBatchHoldsAll | src/bin/sort.rs:398-420 | With such a buffer, lines that fit one batch are sent in one. |
| SortProgress.NextShrinks | src/bin/sort.rs:398-507 | Every step of every interleaving makes a lexicographic measure smaller: not exhausted, lines left, stall left, program counter, merges to send, work of the pool. |
| SortProgress.NoEndlessRun | src/bin/sort.rs:398-507 | There is no endless run, for any input and any options. |
| SortProgress.Progress | src/bin/sort.rs:398-507 | Before the end some step is always possible, also in the system as written. |
| SortProgress.ReachesOutput | src/bin/sort.rs:483-496 | From every reachable state that is not the end the final merge can be reached. |
| SortShapes.ResultShape | src/bin/sort.rs:186-262 | A chunk that was not merged is a sorted batch, and a merged chunk holds at most five batches. |
| SortShapes.ResultClean | src/bin/sort.rs:186-262 | A job on sorted, non-empty chunks, or on a non-empty batch, produces a sorted, non-empty chunk. |
| SortShapes.NextShapes | src/bin/sort.rs:425-459 | Every step keeps the sizes and kinds of chunks and jobs and, while no batch is empty, that all chunks are sorted and non-empty. |
| SortEmptyBatch.NextEmptyKept | src/bin/sort.rs:405-420 | An empty batch that ends the input is never merged before the final merge. |
| SortEmptyBatch.EmptyAtOutput | src/bin/sort.rs:494-497 | ... so it is an empty chunk of the final heap. |
| SortCorrectness.ReachableInv | src/bin/sort.rs:398-507 | The invariant holds in every reachable state of every interleaving. |
| SortCorrectness.LinesAreConserved | src/bin/sort.rs:398-507 | In every reachable state unread input, batch, jobs, shared chunks and output together hold each line as often as the input, empty chunks or not. |
| SortCorrectness.OutputIsPermutation | src/bin/sort.rs:398-507 | The output of every run is a permutation of the input lines. |
| SortCorrectness.OutputIsLines | src/bin/sort.rs:496-507 | The output of every run is its lines, each followed by a newline. |
| SortCorrectness.BatchesArePlanned | src/bin/sort.rs:398-420 | Whatever the interleaving, the batches submitted are those of the plan, in its order. |
| SortCorrectness.MergeJobsAreFresh | src/bin/sort.rs:425-459 | In every reachable state every merge job has one to five chunks, each sorted and none merged or flushed before. |
| SortTracking.RunsCanBeTracked | src/bin/sort.rs:419-473 | In every run the batches can be followed: by number from the batch sent, through jobs, to chunks. |
| SortTracking.BatchesStayApart | src/bin/sort.rs:419-473 | Along every run every job and every chunk holds exactly the lines of the batches it is said to hold, each batch sent is in exactly one of them until the final merge, and in the whole run each is handed to a merge job at most once. |
| SortTracking.NoBatchInTwoJobs | src/bin/sort.rs:425-459 | Before the final merge no batch is in two jobs or chunks, and each was either handed to one merge job or is unmerged. |
| SortCorrectness.MergesFollowIff | src/bin/sort.rs:422-456 | Merge jobs follow a batch if and only if the input is not at its end and either `bytes` is above the buffer size or `batches` above five; the jobs flush exactly in the first case. |
| SortCorrectness.LoopHeadBounds | src/bin/sort.rs:398-477 | At every head of the batching loop `bytes` is within the buffer and `batches` at most five. |
| SortCorrectness.ChunksStaySorted | src/bin/sort.rs:186-268 | While no empty batch has been submitted, every chunk in the vector or in a job is sorted and non-empty, in every reachable state. |
| SortCorrectness.OutputIsSorted | src/bin/sort.rs:398-507 | When no batch of the plan is empty, every run writes the sorted input, each line with a newline. |
| SortOneBatch.LoneMerge | src/bin/sort.rs:198-218 | Merging chunks of which one holds everything and the others nothing gives everything, sorted, or nothing. |
| SortOneBatch.OneBatchSorts | src/bin/sort.rs:398-507 | When one batch holds all lines every run sorts, whatever empty batches there are. |
| SortSchedules.MergeAllPath | src/bin/sort.rs:462-476 | As written, all merge jobs can be run as soon as they are sent, and none of their results can be merged again. |
| SortSchedules.StallPath | src/bin/sort.rs:402-420 | While `bytes` stands at the buffer size, iterations send empty batches until there are six. |
| SortSchedules.StallAndMerge | src/bin/sort.rs:419-459 | A stall can leave a merged chunk of the batches before it, with any result the heap allows, and a merged chunk without lines. |
| SortCritical.MergedStays | src/bin/sort.rs:432-433 | A merged chunk stays in the vector until the final merge. |
| SortCritical.CriticalStays | src/bin/sort.rs:425-496 | An empty merged chunk beside a part of the lines, an unsorted chunk, or a batch that can no longer be merged, with an empty last batch, lasts until the final merge. |
| SortCritical.CriticalAtOutput | src/bin/sort.rs:494-507 | Unless all lines are the same, the final merge of such a state can write unsorted output, for some choice that the contract of the heap leaves open. |
| SortCritical.CriticalEnds | src/bin/sort.rs:483-507 | From such a state the program as written can go on to write unsorted output, for some choices of the heap. |
| SortExact.StalledIsCritical | src/bin/sort.rs:402-459 | After a stall such a state can be reached. |
| SortExact.LastSent | src/bin/sort.rs:402-459 | When the last lines have been sent, such a state can be reached. |
| SortExact.SureRunsSort | src/bin/sort.rs:398-507 | When no batch is empty, or one holds all lines, or all lines are the same, every run writes sorted output. |
| SortExact.OutputIsAscending | src/bin/sort.rs:156-162 | ... in ascending order of bytes: of two output lines the earlier one is a prefix of the later one or has the smaller byte at the first place where they differ. |
| SortExact.UnsortedRun | src/bin/sort.rs:398-507 | Otherwise the program as written has a run whose output is not sorted, for some choices that the contract of the heap leaves open. |
| SortExact.SortsIff | src/bin/sort.rs:398-507 | For all inputs and options: all runs, over all choices that the contract of the heap leaves open, write sorted output if and only if no batch of the plan is empty, or one holds all lines, or all lines are the same. |
| SortExact.SureWithLargeBuffer | src/bin/sort.rs:380-383 | With a buffer larger than the input this condition is: the number of lines is not a multiple of the batch size, or within one batch, or all lines are the same. |
| SortExact.UnsortedExample | src/bin/sort.rs:398-507 | The file of the lines b and a, with one line per batch, has a run that writes it as it is. |
| ChunkedReader.NextItem | src/chunks.rs:138-166 | An item that leaves something to read is a chunk, and less is left. |
| ChunkedReader.ItemsRebuild | src/chunks.rs:108-168 | Joining the items with delimiters rebuilds the stream, up to one trailing delimiter; with a bail it rebuilds it exactly. |
| ChunkedReader.StrippedIff | src/chunks.rs:138-148 | A trailing delimiter is stripped from the last chunk unless the stream is empty, does not end with one, ends with one at the end of a full buffer, or ends in a bail. |
| ChunkedReader.ItemsShape | src/chunks.rs:151-165 | All items but the last are chunks shorter than the maximum; a bail is a full window without a delimiter. |
| ChunkedReader.CutsAreGreedy | src/chunks.rs:150-166 | Every item but the last ends at the last delimiter among the next bytes of the stream, as many as the maximum, all of which are there. |
| ChunkedReader.LastItemTakesTheRest | src/chunks.rs:138-154 | The last item is a chunk exactly when fewer bytes than the maximum are left, and is these without one trailing delimiter; else it is a full window without a delimiter, with the rest of the input. |
| ChunkedReader.EndsAtFullBufferIff | src/chunks.rs:133-166 | The stream ends with a delimiter at the end of a full buffer exactly when the items before the last one consume all of it. |
| ChunkedReader.Source.Read | src/chunks.rs:123-130 | A read fails, or returns any number of the next bytes, and 0 only at the end or without room. |
| ChunkedReader.Reader.constructor | src/chunks.rs:85-96 | A reader starts with an empty leftover and the whole source. |
| ChunkedReader.Reader.Fill | src/chunks.rs:122-136 | Whatever sizes the reads return, the buffer gets the next bytes until it is full or the input ends. |
| ChunkedReader.Reader.Emit | src/chunks.rs:138-166 | A full buffer, or the end of the input, becomes the item that greedy cutting says, with the leftover kept. |
| ChunkedReader.Reader.Next | src/chunks.rs:108-168 | Each call gives the next item of the greedy cutting; an error ends the iteration; the leftover stays shorter than the maximum. |
| ChunkedReader.ReadAll | src/chunks.rs:108-168 | The items are a function of the stream, the delimiter and the maximum alone; with an error they are a prefix of that. |
| Utf8.WidthOfChar | src/bin/wc.rs:32-49 | The width table gives the length of every well-formed character. |
| Utf8.WidthIff | src/bin/wc.rs:32-49 | A byte has width n above 0 exactly when some well-formed character of n bytes starts with it, and width 0 exactly when none does. |
| Utf8.CharIff | src/bin/wc.rs:31-49 | The well-formed characters are exactly the encodings of the code points up to 10FFFF that are not surrogates. |
| Utf8.EncodeIsInjective | src/bin/wc.rs:31-49 | Different code points have different encodings. |
| Utf8.PanicsIff | src/bin/wc.rs:70-77 | The iterator panics exactly on a byte that starts no character, and where the characters that start with the byte are longer than what is left. |
| Utf8.NoNewlineInside | src/bin/wc.rs:32-49 | A newline byte occurs in a character only as the newline character. |
| Utf8.BytesToChars.Next | src/bin/wc.rs:62-80 | The iterator takes the bytes of one character by the width table, or reaches one of its two panics. |
| Utf8.WellFormedChars | src/bin/wc.rs:59-81 | On well-formed bytes neither panic is reached, and the characters are complete and concatenate to the bytes. |
| Utf8.CharsOfConcat | src/bin/wc.rs:59-81 | Bytes put together from complete characters are well-formed and are read as these characters. |
| Utf8.CutAtNewline | src/bin/wc.rs:295 | Text with a newline in it is well-formed if and only if both sides are. |
| Utf8.CharsAtNewline | src/bin/wc.rs:192-205 | Decoding both sides, with the newline put back, is decoding the text. |
| Utf8.ItemsWellFormed | src/bin/wc.rs:295 | The input is well-formed if and only if every chunk cut on newlines, and the data of a bail with its rest, is. |
| Utf8.ItemsDecode | src/bin/wc.rs:190-205 | Decoding the items one by one, with the removed newlines put back, is decoding the input. |
| WordCount.CountBytes | src/bin/wc.rs:84-100 | The number of bytes and of newlines of a chunk, each plus one. |
| WordCount.Counters.RunJob | src/bin/wc.rs:164-178 | A job adds its counts to the shared counters. |
| WordCount.RunJobs | src/bin/wc.rs:164-178 | Jobs run one after the other leave the sums of their counts. |
| WordCount.SumPermuted | src/bin/wc.rs:207-211 | The sums do not depend on the order in which the jobs run. |
| WordCount.FileExcess | src/bin/wc.rs:84-100 | For one input the summed bytes and the summed lines exceed the true counts by the same amount: 0 if the last item is a chunk whose newline was stripped, else 1. |
| WordCount.AllItemsOf | src/bin/wc.rs:286-304 | The jobs for several inputs are those of each input, in order. |
| WordCount.TotalsOf | src/bin/wc.rs:286-304 | Every input counts once in the totals: its bytes, its bytes 10, and the amount above. |
| WordCount.ExcessCases | src/bin/wc.rs:95-97 | That amount is 1 exactly for an empty input, one without a final newline, one whose final newline ends a full buffer, and one that ends in a bail. |
| WordCount.WcBytesTotals | src/bin/wc.rs:293-306 | For all inputs, in every finished run of the pool, both totals exceed the true counts by the number of inputs of the second kind. |
| WordCount.CountAll | src/bin/wc.rs:103-155 | The loop counts the maximal runs of characters that are not whitespace, and bytes, characters and newlines plus one each unless the last character is a newline. |
| WordCount.WordsAtSpace | src/bin/wc.rs:119-123 | The number of words of two texts joined by one of the bytes 9 to 14 is the sum of theirs. |
| WordCount.WordsOfOne | src/bin/wc.rs:119-141 | No characters make no word; a character makes one unless it is one of these bytes. |
| WordCount.WordsAround | src/bin/wc.rs:137-141 | Any other character between two such characters joins the words on both sides to one. |
| WordCount.FileWords | src/bin/wc.rs:190-213 | For well-formed input and any chunk size the words of the items add up to the words of the input. |
| WordCount.Decode | src/bin/wc.rs:190-205 | On well-formed text the iterator yields the characters of the text and reaches no panic. |
| WordCount.RunAllJob | src/bin/wc.rs:190-213 | A job on well-formed text reaches no panic and returns the counts of its text. |
| WordCount.WcWordsTotal | src/bin/wc.rs:342-357 | For all well-formed inputs, any chunk size and every finished run of the pool, the total is the number of words of the inputs. |
| WordCount.ItemsTotals | src/bin/wc.rs:144-148 | On well-formed text the byte and line totals of `count_all` are below those of `count_bytes` by the number of items that themselves end in a newline. |
| WordCount.FileTotals | src/bin/wc.rs:103-155 | For one well-formed input: how far the summed bytes, characters and lines of `count_all` are from the true counts. |
| WordCount.WcAllTotals | src/bin/wc.rs:342-357 | For all well-formed inputs, in every finished run of the pool: the byte, character and line totals are too large by one for each input whose final newline was not stripped, and too small by one for each item that itself ends in a newline. |
| DiskUsage.Du.Run | src/bin/du.rs:85-135 | Entering pushes the size of the files, and puts the sub-directories as tasks, the last listed one first, before the summary; leaving prints the top of the stack and adds it to the size below. |
| DiskUsage.EntriesReach | src/bin/du.rs:101-113 | Running the tasks of the sub-directories arrives at the rest with their recursive totals added to the top of the stack and their reports printed. |
| DiskUsage.EnterReaches | src/bin/du.rs:88-133 | Running the list from an enter task on top of any rest arrives at that rest with the top of the stack increased by exactly the recursive total, having printed the report of the directory, after a number of steps that depends on the tree alone. |
| DiskUsage.TwoStepsEach | src/bin/du.rs:85-135 | That number is two for each directory of the tree. |
| DiskUsage.ListReaches | src/bin/du.rs:148-150 | Every task list with enough sizes on the stack runs to its end and does what it means, in exactly the steps counted for it. |
| DiskUsage.RunAll | src/bin/du.rs:148-150 | The loop leaves and prints what its task list means. |
| DiskUsage.DuOne | src/bin/du.rs:141-150 | For one input the report of the tree is printed, and its recursive total is left on the stack. |
| DiskUsage.TotalIsSum | src/bin/du.rs:98-131 | The total of a directory is the sum over the list of the sizes of all files in its tree. |
| DiskUsage.FileAddsItsSize | src/bin/du.rs:113-131 | One more file at any place of any directory of the tree raises the total by exactly its size. |
| DiskUsage.ReportIsComplete | src/bin/du.rs:126-133 | A report has one line for each directory of the tree, with its own recursive total. |
| DiskUsage.ChildrenBeforeParent | src/bin/du.rs:101-113 | The report of each sub-directory stands as one block before the line of the directory, which is the last. |
| DiskUsage.LaterSiblingFirst | src/bin/du.rs:105-111 | Of two sub-directories of a directory the one listed later is reported first. |
| DiskUsage.ReportAllSnoc | src/bin/du.rs:141-142 | The last input is reported before the others. |
| DiskUsage.DuAll | src/bin/du.rs:139-151 | Inputs are reported from the last to the first, each with a fresh stack. |
| Tail.CutUnique | src/bin/tail.rs:121-129 | There is exactly one place after the (N+1)-th newline from the end, or the start when there are fewer. |
| Tail.ScanBlock | src/bin/tail.rs:120-129 | Scanning a block backwards counts its newlines, or cuts it after the newline that is one too many. |
| Tail.TailFile | src/bin/tail.rs:101-143 | For every content, every N and every block size at least 1, the output is the text from that place on. |
| Tail.Absorb | src/bin/tail.rs:81-86 | After each line the queue holds the last N of the lines that reached it, or all of them when N is 0. |
| Tail.TailStdin | src/bin/tail.rs:76-93 | The output is the lines of the queue, each with a newline. |
| Tail.AcceptedIs | src/bin/tail.rs:81 | For every text: the lines that are valid UTF-8 reach the queue, in order; those that were complete as the next row says, an incomplete last one as it is. |
| Tail.AcceptedLineByLine | src/bin/tail.rs:81 | Lines reach the queue one by one, in order, each without one final byte 13, and not at all when they are not valid. |
| Tail.RecentIs | src/bin/tail.rs:82-85 | The queue keeps the last N lines, or all of them when there are fewer or N is 0. |
| Tail.FilePrintsLastLines | src/bin/tail.rs:101-143 | On text whose last line is complete the file version prints the last N lines. |
| Tail.FilePrintsOneMore | src/bin/tail.rs:101-143 | On text whose last line is not complete it prints that line after the last N complete ones, so one line more. |
| Tail.QueueIsLastLines | src/bin/tail.rs:81-86 | The queue holds the last N lines as they are if and only if they are valid UTF-8 without a final carriage return. |
| Tail.VersionsAgreeIff | src/bin/tail.rs:76-143 | For every content and N, both versions print the same bytes if and only if the last line is complete and either N is positive and the last N lines are of that kind, or N is 0 and no line is valid. |
| Tail.VersionsAgreeOnPlainText | src/bin/tail.rs:76-143 | In particular on complete lines of UTF-8 without carriage returns, for N at least 1. |
| Pager.Pager.constructor | src/bin/less.rs:40-48 | The pager starts at position 0. |
| Pager.Pager.JumpToTop | src/bin/less.rs:50-58 | The position becomes 0, and the call succeeds exactly when it was not. |
| Pager.Pager.JumpToBottom | src/bin/less.rs:60-84 | The position becomes the line start with exactly nine line starts after it, and the call fails exactly when there are fewer than ten after 0. |
| Pager.Pager.ScrollDown | src/bin/less.rs:86-102 | The position becomes the next line start, and the call fails exactly when there is none. |
| Pager.Pager.ScrollUp | src/bin/less.rs:104-122 | The position becomes the previous line start, and the call fails exactly at positions 0 and 1. |
| Pager.LinesFromStart | src/bin/less.rs:50-122 | From a line start on, the text is its last lines: one more than there are line starts after it. |
| Pager.BottomShowsTen | src/bin/less.rs:60-84 | A jump to the bottom shows exactly the last ten lines, and fails exactly when there are at most ten. |
| Pager.DownHidesOne | src/bin/less.rs:86-102 | A scroll down takes away exactly the first line shown, and fails exactly when only one is left. |
| Pager.MoveIsDetermined | src/bin/less.rs:50-122 | The position before a move fixes the position after it and its result. |
| Pager.UpUndoesDownIff | src/bin/less.rs:86-122 | Scrolling up undoes a successful scroll down if and only if that did not end at position 1. |
| Pager.DownUndoesUp | src/bin/less.rs:86-122 | Scrolling down undoes every successful scroll up. |
| Pager.RunStaysOnLineStarts | src/bin/less.rs:50-122 | Over every sequence of moves the position is 0 or a line start below the length. |
| Pager.DownsThatSucceed | src/bin/less.rs:86-102 | In a run of scrolls down exactly as many succeed as there are line starts left. |
| Pager.NineScrollsFromBottom | src/bin/less.rs:60-102 | After a successful jump to the bottom, exactly the first nine scrolls down succeed. |

## Left out

- Files, standard input and output, temporary files and argument parsing: inputs are byte sequences, outputs are byte sequences or lists of printed lines.
- Progress lines and times on standard error.
- I/O errors in `sort` and `wc`, where the program stops; in `ChunkedReader` an error ends the iteration.
- Panics inside jobs and poisoned mutexes.
- The internals of `BinaryHeap`, `sort_unstable`, channels, mutexes and atomics: they are taken by what they promise. In particular the choice that a heap makes while a chunk without a head is in it is left open.
- Machine integers: sizes and counters are unbounded, so wrapping of `u64` and `usize` counters is not modelled.
- `SortOrder` and the numeric option of `sort`, which are parsed and not used.
- The `Executor` enum as a type: `Pool.FinishedRun` says that the concurrent executor runs the jobs the synchronous one runs, in its order.
- Regrouping under the lock of the shared vector, running a job and the final merge are one step of the system each; their loops are `SortJobs.Regroup`, `SortedChunks.RunSort`, `SortedChunks.RunMerge`, `SortedChunks.RunMergeFlush` and `SortedChunks.MergeInto`.
- Line lengths of `wc -L`: per-chunk maxima are added up, which is no count of the whole input.
- `du` on a metadata error, where the program stops, and on a file system that changes while it is walked.
- `tail --follow`, and a file that changes while it is read.
- Searching, drawing and key handling of `less`; searching can leave the position off a line start.
- The other utilities: thin wrappers over system calls, or small loops.
