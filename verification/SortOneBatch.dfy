/** Runs of `sort` in which one batch holds all lines, so that every other batch is empty. */
module SortOneBatch {
  import opened Bytes
  import opened Lines
  import opened Merging
  import opened SortJobs
  import opened SortSystem
  import P = Pool
  import C = SortConservation
  import opened SortPlan
  import opened SortCorrectness

  // ---------- the batches of a plan ----------

  lemma {:induction false} FlattenMember(batches: seq<Merging.Lines>, i: nat)
    requires i < |batches|
    ensures |batches[i]| <= |Flatten(batches)|
    ensures |batches[i]| == |Flatten(batches)| ==> batches[i] == Flatten(batches)
  {
    var rest := Flatten(batches[1..]);
    if i > 0 {
      FlattenMember(batches[1..], i - 1);
      if |batches[i]| == |Flatten(batches)| {
        assert batches[0] == [] && [] + rest == rest;
      }
    } else if |batches[0]| == |Flatten(batches)| {
      assert rest == [] && batches[0] + [] == batches[0];
    }
  }

  lemma {:induction false} FlattenTwo(batches: seq<Merging.Lines>, i: nat, j: nat)
    requires i < j < |batches|
    ensures |batches[i]| + |batches[j]| <= |Flatten(batches)|
  {
    if i == 0 {
      FlattenMember(batches[1..], j - 1);
    } else {
      FlattenTwo(batches[1..], i - 1, j - 1);
    }
  }

  lemma PlanFlattens(c: Config, input: Merging.Lines)
    requires ValidConfig(c)
    ensures Flatten(Plan(c, input)) == input
  {
    PlanCutsInput(c, input, [], 0, 0);
    assert [] + input == input;
  }

  /** A batch is the whole input or smaller. */
  lemma BatchIsPart(c: Config, input: Merging.Lines, batch: Merging.Lines)
    requires ValidConfig(c) && batch in Plan(c, input)
    ensures batch == input || |batch| < |input|
  {
    PlanFlattens(c, input);
    var i :| 0 <= i < |Plan(c, input)| && Plan(c, input)[i] == batch;
    FlattenMember(Plan(c, input), i);
  }

  /** Beside a batch that is the whole input all others are empty. */
  lemma OthersAreEmpty(c: Config, input: Merging.Lines, batch: Merging.Lines)
    requires ValidConfig(c) && input in Plan(c, input) && batch in Plan(c, input)
    ensures batch == input || batch == []
  {
    PlanFlattens(c, input);
    var plan := Plan(c, input);
    var i :| 0 <= i < |plan| && plan[i] == input;
    var j :| 0 <= j < |plan| && plan[j] == batch;
    if i < j {
      FlattenTwo(plan, i, j);
    } else if j < i {
      FlattenTwo(plan, j, i);
    }
  }

  /** The next batch to be sent belongs to the plan. */
  lemma NextBatchIsPlanned(c: Config, input: Merging.Lines, s: State)
    requires ValidConfig(c) && Core(c, input, s) && s.pc == SubmitSort
    ensures s.lines in Plan(c, input)
  {
    assert PlanOf(c, s)[0] == s.lines;
    assert Plan(c, input)[|s.sorts|] == s.lines;
  }

  // ---------- chunks that hold nothing or everything ----------

  ghost predicate ChunkLone(input: Merging.Lines, chunk: Chunk) {
    chunk.lines == [] || chunk.lines == SortLines(input)
  }

  ghost predicate ChunksLone(input: Merging.Lines, chunks: seq<Chunk>) {
    forall n :: 0 <= n < |chunks| ==> ChunkLone(input, chunks[n])
  }

  ghost predicate JobLone(input: Merging.Lines, job: Job) {
    if job.Sort? then job.lines == [] || job.lines == input else ChunksLone(input, job.chunks)
  }

  ghost predicate JobsLone(input: Merging.Lines, jobs: seq<Job>) {
    forall n :: 0 <= n < |jobs| ==> JobLone(input, jobs[n])
  }

  ghost predicate Lone(input: Merging.Lines, s: State) {
    && JobsLone(input, s.pending) && JobsLone(input, s.pool.queue) && ChunksLone(input, s.chunks)
    && forall w :: 0 <= w < |s.pool.workers| && s.pool.workers[w].Running? ==> JobLone(input, s.pool.workers[w].job)
  }

  /** Chunks that do not hold more lines than there are. */
  ghost predicate Within(input: Merging.Lines, chunks: seq<Chunk>) {
    forall x :: C.ChunksOccur(chunks, x) <= C.Occurs(input, x)
  }

  lemma OneChunkOccurs(heap: seq<Merging.Lines>, i: nat, x: Line)
    requires i < |heap|
    ensures Union(heap)[x] == Union(Remove(heap, i))[x] + multiset(heap[i])[x]
  {
    UnionRemove(heap, i);
  }

  lemma RemovedAt(heap: seq<Merging.Lines>, i: nat, j: nat)
    requires i < j < |heap|
    ensures |Remove(heap, i)| == |heap| - 1 && Remove(heap, i)[j - 1] == heap[j]
  {
  }

  lemma TwoChunksOccur(heap: seq<Merging.Lines>, i: nat, j: nat, x: Line)
    requires i < j < |heap|
    ensures Union(heap)[x] >= multiset(heap[i])[x] + multiset(heap[j])[x]
  {
    OneChunkOccurs(heap, i, x);
    RemovedAt(heap, i, j);
    ChunkWithin(Remove(heap, i), j - 1, heap[j], x);
  }

  lemma ChunkWithin(heap: seq<Merging.Lines>, i: nat, chunk: Merging.Lines, x: Line)
    requires i < |heap| && heap[i] == chunk
    ensures Union(heap)[x] >= multiset(chunk)[x]
  {
    OneChunkOccurs(heap, i, x);
  }

  /** Two chunks that hold everything hold a line too often. */
  lemma TwoWholeChunks(input: Merging.Lines, chunks: seq<Chunk>, i: nat, j: nat)
    requires i < j < |chunks| && chunks[i].lines == chunks[j].lines == SortLines(input) && input != []
    ensures C.ChunksOccur(chunks, input[0]) > C.Occurs(input, input[0])
  {
    var x := input[0];
    assert x in multiset(input);
    TwoChunksOccur(LinesOf(chunks), i, j, x);
    C.UnionOccurs(chunks, x);
  }

  lemma LoneAtMostOne(input: Merging.Lines, chunks: seq<Chunk>)
    requires ChunksLone(input, chunks) && Within(input, chunks)
    ensures AtMostOneNonEmpty(LinesOf(chunks))
  {
    var heap := LinesOf(chunks);
    assert input == [] ==> SortLines(input) == [];
    forall i, j | 0 <= i < j < |heap| ensures heap[i] == [] || heap[j] == [] {
      if heap[i] != [] && heap[j] != [] {
        TwoWholeChunks(input, chunks, i, j);
      }
    }
  }

  /** Merging such chunks gives nothing or everything, sorted. */
  lemma LoneMerge(input: Merging.Lines, chunks: seq<Chunk>, out: Merging.Lines)
    requires ChunksLone(input, chunks) && Within(input, chunks) && MergeRun(LinesOf(chunks), out)
    ensures out == [] || out == SortLines(input)
  {
    var heap := LinesOf(chunks);
    LoneAtMostOne(input, chunks);
    SortLinesSorted(input);
    assert AllSorted(heap);
    SafeMergeSorts(heap, out);
    MergeConserves(heap, out);
    if i :| 0 <= i < |heap| && heap[i] != [] {
      OneNonEmptyUnion(heap, i);
      SortedUnique(out, SortLines(input));
    } else {
      AllEmptyUnion(heap);
      assert |multiset(out)| == 0;
    }
  }

  // ---------- every step keeps this ----------

  lemma LoneCons(input: Merging.Lines, first: seq<Chunk>, rest: seq<Chunk>)
    requires ChunksLone(input, first) && ChunksLone(input, rest)
    ensures ChunksLone(input, first + rest)
  {
  }

  lemma {:induction false} KeptLone(input: Merging.Lines, all: seq<Chunk>)
    requires ChunksLone(input, all)
    ensures ChunksLone(input, Kept(all)) && ChunksLone(input, Taken(all))
  {
    if all == [] {
    } else {
      KeptLone(input, all[1..]);
      assert ChunkLone(input, all[0]);
      LoneCons(input, if Mergeable(all[0]) then [] else [all[0]], Kept(all[1..]));
      LoneCons(input, if Mergeable(all[0]) then [all[0]] else [], Taken(all[1..]));
    }
  }

  lemma {:induction false} GroupsLone(input: Merging.Lines, chunks: seq<Chunk>, flush: bool)
    requires ChunksLone(input, chunks)
    ensures JobsLone(input, GroupJobs(chunks, flush))
  {
    if |chunks| <= N_WAY_MERGE {
    } else {
      GroupsLone(input, chunks[N_WAY_MERGE..], flush);
    }
  }

  /** A running job does not hold more lines than there are. */
  lemma RunningWithin(c: Config, input: Merging.Lines, s: State, w: nat)
    requires HoldsInput(input, s) && w < |s.pool.workers| && s.pool.workers[w].Running? && !s.pool.workers[w].job.Sort?
    ensures Within(input, s.pool.workers[w].job.chunks)
  {
    forall x ensures C.ChunksOccur(s.pool.workers[w].job.chunks, x) <= C.Occurs(input, x) {
      C.WorkersUpdate(s.pool.workers, w, P.Waiting, x);
      assert C.Total(s, x) == C.Occurs(input, x);
    }
  }

  lemma ResultLone(c: Config, input: Merging.Lines, s: State, t: State, w: nat, chunk: Chunk)
    requires ValidConfig(c) && Core(c, input, s) && Lone(input, s) && FinishJob(s, t, w, chunk)
    ensures ChunkLone(input, chunk)
  {
    var job := s.pool.workers[w].job;
    assert JobLone(input, job) && C.JobFree(job);
    if job.Sort? {
      assert SortLines([]) == [];
    } else {
      C.ResultFree(job, chunk);
      RunningWithin(c, input, s, w);
      LoneMerge(input, job.chunks, chunk.lines);
    }
  }

  lemma TakeLone(c: Config, input: Merging.Lines, s: State, t: State)
    requires Lone(input, s) && TakeChunks(c, s, t)
    ensures Lone(input, t)
  {
    KeptLone(input, s.chunks);
    GroupsLone(input, Taken(s.chunks), s.bytes > c.bufferSize);
  }

  lemma SendLone(c: Config, input: Merging.Lines, s: State, t: State)
    requires ValidConfig(c) && Core(c, input, s) && input in Plan(c, input) && Lone(input, s) && SendSort(c, s, t)
    ensures Lone(input, t)
  {
    NextBatchIsPlanned(c, input, s);
    OthersAreEmpty(c, input, s.lines);
  }

  lemma SendMergeLone(c: Config, input: Merging.Lines, s: State, t: State)
    requires Lone(input, s) && SendMerge(c, s, t)
    ensures Lone(input, t)
  {
  }

  lemma SameLone(input: Merging.Lines, s: State, t: State)
    requires Lone(input, s) && t.pending == s.pending
    requires t.pool.queue == s.pool.queue && t.pool.workers == s.pool.workers
    requires t.chunks == s.chunks || t.chunks == []
    ensures Lone(input, t)
  {
  }

  lemma MainLone(c: Config, input: Merging.Lines, s: State, t: State)
    requires ValidConfig(c) && Core(c, input, s) && input in Plan(c, input) && Lone(input, s) && MainNext(c, s, t)
    ensures Lone(input, t)
  {
    if TakeChunks(c, s, t) {
      TakeLone(c, input, s, t);
    } else if SendSort(c, s, t) {
      SendLone(c, input, s, t);
    } else if SendMerge(c, s, t) {
      SendMergeLone(c, input, s, t);
    } else if MergeAll(c, s, t) {
      OutputStep(c, s, t);
      SameLone(input, s, t);
    } else {
      QuietStep(c, s, t);
      SameLone(input, s, t);
    }
  }

  lemma FinishLone(input: Merging.Lines, s: State, t: State, w: nat, chunk: Chunk)
    requires Lone(input, s) && ChunkLone(input, chunk)
    requires w < |s.pool.workers|
    requires t == s.(pool := t.pool, chunks := s.chunks + [chunk])
    requires t.pool.queue == s.pool.queue && t.pool.workers == s.pool.workers[w := P.Waiting]
    ensures Lone(input, t)
  {
  }

  lemma MoveLone(input: Merging.Lines, s: State, t: State, w: nat, early: bool)
    requires Lone(input, s) && MoveWorker(s, t, w, early)
    ensures Lone(input, t)
  {
  }

  lemma WorkerLone(c: Config, input: Merging.Lines, s: State, t: State, w: nat, early: bool)
    requires ValidConfig(c) && Core(c, input, s) && Lone(input, s) && WorkerNext(s, t, w, early)
    ensures Lone(input, t)
  {
    if chunk :| FinishJob(s, t, w, chunk) {
      ResultLone(c, input, s, t, w, chunk);
      FinishLone(input, s, t, w, chunk);
    } else {
      MoveLone(input, s, t, w, early);
    }
  }

  /** Before the end chunks hold nothing or everything; at the end the output is sorted. */
  ghost predicate LoneOrSorted(c: Config, input: Merging.Lines, s: State)
    requires ValidConfig(c)
  {
    Inv(c, input, s) && if s.pc == Done then Sorted(SplitLines(s.output)) else Lone(input, s)
  }

  lemma SharedWithin(c: Config, input: Merging.Lines, s: State)
    requires HoldsInput(input, s)
    ensures Within(input, s.chunks)
  {
    forall x ensures C.ChunksOccur(s.chunks, x) <= C.Occurs(input, x) {
      assert C.Total(s, x) == C.Occurs(input, x);
    }
  }

  lemma FinalMergeLone(c: Config, input: Merging.Lines, s: State, t: State)
    requires ValidConfig(c) && Core(c, input, s) && Lone(input, s) && MergeAll(c, s, t)
    ensures Sorted(SplitLines(t.output))
  {
    var out :| MergeRun(LinesOf(s.chunks), out) && t == s.(pc := Done, chunks := [], output := Unlines(out));
    C.MergeFree(s.chunks, out);
    SplitUnlines(out);
    SharedWithin(c, input, s);
    LoneMerge(input, s.chunks, out);
    SortLinesSorted(input);
  }

  lemma NextLone(c: Config, input: Merging.Lines, s: State, t: State, liberal: bool)
    requires ValidConfig(c) && input in Plan(c, input) && LoneOrSorted(c, input, s) && Next(c, s, t, liberal)
    ensures LoneOrSorted(c, input, t)
  {
    NextInv(c, input, s, t, liberal);
    if s.pc != Done {
      LoneStep(c, input, s, t, liberal);
    } else {
      DoneIsStuck(c, s, t, liberal);
    }
  }

  lemma LoneStep(c: Config, input: Merging.Lines, s: State, t: State, liberal: bool)
    requires ValidConfig(c) && input in Plan(c, input) && Core(c, input, s) && Lone(input, s) && Next(c, s, t, liberal)
    requires s.pc != Done
    ensures if t.pc == Done then Sorted(SplitLines(t.output)) else Lone(input, t)
  {
    if t.pc == Done {
      OnlyMergeEnds(c, s, t, liberal);
      FinalMergeLone(c, input, s, t);
    } else if MainNext(c, s, t) {
      MainLone(c, input, s, t);
    } else {
      WorkersLone(c, input, s, t, liberal);
    }
  }

  lemma WorkersLone(c: Config, input: Merging.Lines, s: State, t: State, liberal: bool)
    requires ValidConfig(c) && Core(c, input, s) && Lone(input, s) && Next(c, s, t, liberal) && !MainNext(c, s, t)
    ensures Lone(input, t) && t.pc == s.pc
  {
    var w: nat, early: bool :| (early ==> liberal) && WorkerNext(s, t, w, early);
    WorkerLone(c, input, s, t, w, early);
    WorkerPool(s, t, w, early);
  }

  /** When one batch holds all lines, every run sorts, whatever empty batches there are. */
  lemma OneBatchSorts(c: Config, files: seq<seq<byte>>, t: State, liberal: bool)
    requires ValidConfig(c) && InputLines(files) in Plan(c, InputLines(files))
    requires Reachable(c, files, t, liberal) && t.pc == Done
    ensures Sorted(SplitLines(t.output))
  {
    var input := InputLines(files);
    var start := Init(c, input);
    InitInv(c, files);
    assert LoneOrSorted(c, input, start);
    forall s, u | LoneOrSorted(c, input, s) && Next(c, s, u, liberal) ensures LoneOrSorted(c, input, u) {
      NextLone(c, input, s, u, liberal);
    }
    var n: nat :| ReachesIn(c, start, t, liberal, n);
    InductiveHolds(c, s => LoneOrSorted(c, input, s), start, t, liberal, n);
  }
}
