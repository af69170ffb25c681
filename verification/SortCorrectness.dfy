/** What `sort` writes, over all its runs. */
module SortCorrectness {
  import opened Bytes
  import opened Lines
  import opened Merging
  import opened SortJobs
  import opened SortSystem
  import P = Pool
  import C = SortConservation
  import opened SortPlan
  import opened SortShapes
  import opened SortEmptyBatch

  // ---------- the invariant of all runs ----------

  ghost predicate Core(c: Config, input: Merging.Lines, s: State)
    requires ValidConfig(c)
  {
    && Control(c, s) && Counters(c, s)
    && C.Free(s) && HoldsInput(input, s)
    && Shapes(c, s) && (NoEmptySort(s) ==> AllClean(s))
    && Planned(c, input, s)
    && EmptyKept(s)
  }

  /** A state at the end comes from the final merge of a state that satisfies the rest of the invariant. */
  ghost predicate Ended(c: Config, input: Merging.Lines, s: State)
    requires ValidConfig(c)
  {
    s.pc == Done ==> exists m :: Core(c, input, m) && MergeAll(c, m, s)
  }

  ghost predicate Inv(c: Config, input: Merging.Lines, s: State)
    requires ValidConfig(c)
  {
    Core(c, input, s) && Ended(c, input, s)
  }

  /** Every line occurs in the state as often as in the input. */
  ghost predicate HoldsInput(input: Merging.Lines, s: State) {
    forall x :: C.Total(s, x) == C.Occurs(input, x)
  }

  lemma InitInv(c: Config, files: seq<seq<byte>>)
    requires ValidConfig(c)
    ensures Inv(c, InputLines(files), Init(c, InputLines(files)))
  {
    var input := InputLines(files);
    InitControl(c, input);
    C.InputFree(files);
    forall x ensures C.Total(Init(c, input), x) == C.Occurs(input, x) {
      C.InitTotal(c, input, x);
    }
    assert [] + Plan(c, input) == Plan(c, input);
  }

  lemma NextHoldsInput(c: Config, input: Merging.Lines, s: State, t: State, liberal: bool)
    requires Control(c, s) && C.Free(s) && HoldsInput(input, s) && Next(c, s, t, liberal)
    ensures C.Free(t) && HoldsInput(input, t)
  {
    C.NextKeeps(c, s, t, liberal);
  }

  lemma NextCore(c: Config, input: Merging.Lines, s: State, t: State, liberal: bool)
    requires ValidConfig(c) && Core(c, input, s) && Next(c, s, t, liberal)
    ensures Core(c, input, t)
  {
    NextControl(c, s, t, liberal);
    NextHoldsInput(c, input, s, t, liberal);
    NextShapes(c, s, t, liberal);
    NextPlanned(c, input, s, t, liberal);
    NextEmptyKept(c, s, t, liberal);
  }

  /** After the end nothing happens any more. */
  lemma DoneIsStuck(c: Config, s: State, t: State, liberal: bool)
    requires Control(c, s) && s.pc == Done
    ensures !Next(c, s, t, liberal)
  {
    forall w: nat, early: bool ensures !WorkerNext(s, t, w, early) {
      assert w < |s.pool.workers| ==> s.pool.workers[w].Exited?;
    }
  }

  lemma OnlyMergeEnds(c: Config, s: State, t: State, liberal: bool)
    requires Next(c, s, t, liberal) && s.pc != Done && t.pc == Done
    ensures MergeAll(c, s, t)
  {
    if !MainNext(c, s, t) {
      var w: nat, early: bool :| (early ==> liberal) && WorkerNext(s, t, w, early);
      WorkerPool(s, t, w, early);
    }
  }

  lemma NextEnded(c: Config, input: Merging.Lines, s: State, t: State, liberal: bool)
    requires ValidConfig(c) && Core(c, input, s) && Next(c, s, t, liberal)
    ensures Ended(c, input, t)
  {
    if s.pc == Done {
      DoneIsStuck(c, s, t, liberal);
    } else if t.pc == Done {
      OnlyMergeEnds(c, s, t, liberal);
    }
  }

  lemma NextInv(c: Config, input: Merging.Lines, s: State, t: State, liberal: bool)
    requires ValidConfig(c) && Inv(c, input, s) && Next(c, s, t, liberal)
    ensures Inv(c, input, t)
  {
    NextCore(c, input, s, t, liberal);
    NextEnded(c, input, s, t, liberal);
  }

  /** Every step keeps the invariant. */
  lemma InvIsInductive(c: Config, input: Merging.Lines, liberal: bool)
    requires ValidConfig(c)
    ensures Inductive(c, s => Inv(c, input, s), liberal)
  {
    forall s, t | Inv(c, input, s) && Next(c, s, t, liberal) ensures Inv(c, input, t) {
      NextInv(c, input, s, t, liberal);
    }
  }

  ghost predicate Reachable(c: Config, files: seq<seq<byte>>, t: State, liberal: bool) {
    Reaches(c, Init(c, InputLines(files)), t, liberal)
  }

  /** The invariant holds in every reachable state of every interleaving. */
  lemma ReachableInv(c: Config, files: seq<seq<byte>>, t: State, liberal: bool)
    requires ValidConfig(c) && Reachable(c, files, t, liberal)
    ensures Inv(c, InputLines(files), t)
  {
    var input := InputLines(files);
    var n: nat :| ReachesIn(c, Init(c, input), t, liberal, n);
    InitInv(c, files);
    InvIsInductive(c, input, liberal);
    InductiveHolds(c, s => Inv(c, input, s), Init(c, input), t, liberal, n);
  }

  // ---------- conservation ----------

  /**
   In every reachable state, each line occurs in the unread input, the batch being built, the jobs
   waiting, queued or running, the shared chunks and the output together exactly as often as in the
   input, whatever chunks are empty.
   */
  lemma LinesAreConserved(c: Config, files: seq<seq<byte>>, t: State, liberal: bool, x: Line)
    requires ValidConfig(c) && Reachable(c, files, t, liberal)
    ensures C.Total(t, x) == multiset(InputLines(files))[x]
  {
    ReachableInv(c, files, t, liberal);
  }

  /** The output is always a permutation of the input lines, ... */
  lemma OutputIsPermutation(c: Config, files: seq<seq<byte>>, t: State, liberal: bool)
    requires ValidConfig(c) && Reachable(c, files, t, liberal) && t.pc == Done
    ensures multiset(SplitLines(t.output)) == multiset(InputLines(files))
  {
    ReachableInv(c, files, t, liberal);
    forall x ensures multiset(SplitLines(t.output))[x] == multiset(InputLines(files))[x] {
      C.DoneTotal(c, t, x);
    }
  }

  /** ... each followed by a newline. */
  lemma OutputIsLines(c: Config, files: seq<seq<byte>>, t: State, liberal: bool)
    requires ValidConfig(c) && Reachable(c, files, t, liberal) && t.pc == Done
    ensures t.output == Unlines(SplitLines(t.output))
  {
    var m, out := FinalMergeOf(c, files, t, liberal);
  }

  /** At the final merge all lines are in the shared chunks. */
  lemma OutputHoldsAll(c: Config, input: Merging.Lines, s: State)
    requires ValidConfig(c) && Core(c, input, s) && s.pc == Output
    ensures Union(LinesOf(s.chunks)) == multiset(input)
  {
    forall x ensures Union(LinesOf(s.chunks))[x] == multiset(input)[x] {
      P.JoinedMeansDone(s.pool);
      C.NothingInWorkers(s.pool.workers, x);
      C.UnionOccurs(s.chunks, x);
      assert C.Total(s, x) == C.Occurs(input, x);
    }
  }

  // ---------- the batches and the merge jobs ----------

  /** Whatever the interleaving, the batches submitted are those of the plan, in its order. */
  lemma BatchesArePlanned(c: Config, files: seq<seq<byte>>, t: State, liberal: bool)
    requires ValidConfig(c) && Reachable(c, files, t, liberal)
    ensures t.sorts <= Plan(c, InputLines(files))
    ensures t.pc in {Finish, Join, Output, Done} ==> t.sorts == Plan(c, InputLines(files))
  {
    ReachableInv(c, files, t, liberal);
    assert t.sorts + [] == t.sorts;
  }

  ghost predicate MergeJobIn(t: State, job: Job) {
    && !job.Sort?
    && (job in t.pending || job in t.pool.queue || P.Running(job) in t.pool.workers)
  }

  /** Every merge job has one to five chunks, none of which was merged or flushed before. */
  lemma MergeJobsAreFresh(c: Config, files: seq<seq<byte>>, t: State, liberal: bool, job: Job)
    requires ValidConfig(c) && Reachable(c, files, t, liberal) && MergeJobIn(t, job)
    ensures 1 <= |job.chunks| <= 5
    ensures forall n :: 0 <= n < |job.chunks| ==>
              !job.chunks[n].merged && !job.chunks[n].flushed && Sorted(job.chunks[n].lines)
  {
    ReachableInv(c, files, t, liberal);
    assert JobShape(c, job);
    forall n | 0 <= n < |job.chunks|
      ensures !job.chunks[n].merged && !job.chunks[n].flushed && Sorted(job.chunks[n].lines)
    {
      assert ChunkShape(c, job.chunks[n]);
    }
  }

  /**
   After a batch was sent, merge jobs follow if and only if the input is not at its end and either more
   bytes than the buffer holds or more than five batches have come together; the jobs flush exactly in
   the first case.
   */
  lemma MergesFollowIff(c: Config, s: State, t: State, n: nat)
    requires MainNext(c, s, t) && s.pc == Decide
    ensures t.pc == SubmitMerges <==> !s.exhausted && (s.bytes > c.bufferSize || s.batches > 5)
    ensures t.pc == SubmitMerges && n < |t.pending| ==>
              if s.bytes > c.bufferSize then t.pending[n].MergeFlush? else t.pending[n].Merge?
  {
    if t.pc == SubmitMerges && n < |t.pending| {
      var taken := Taken(s.chunks);
      if taken != [] {
        GroupsOfFive(taken, s.bytes > c.bufferSize, 0);
      }
      GroupsOfFive(taken, s.bytes > c.bufferSize, n);
    }
  }

  /** At every head of the batching loop the counters are within their bounds. */
  lemma LoopHeadBounds(c: Config, files: seq<seq<byte>>, t: State, liberal: bool)
    requires ValidConfig(c) && Reachable(c, files, t, liberal) && t.pc == Head && !t.exhausted
    ensures t.bytes <= c.bufferSize && t.batches <= 5
  {
    ReachableInv(c, files, t, liberal);
  }

  // ---------- sortedness ----------

  lemma CleanIsGood(chunks: seq<Chunk>)
    requires ChunksClean(chunks)
    ensures NoEmptyChunk(LinesOf(chunks)) && AllSorted(LinesOf(chunks))
  {
    forall n | 0 <= n < |chunks| ensures LinesOf(chunks)[n] != [] && Sorted(LinesOf(chunks)[n]) {
      assert ChunkClean(chunks[n]);
    }
  }

  /** The state from which a finished run made its final merge, and the lines that this merge wrote. */
  lemma FinalMergeOf(c: Config, files: seq<seq<byte>>, t: State, liberal: bool) returns (m: State, out: Merging.Lines)
    requires ValidConfig(c) && Reachable(c, files, t, liberal) && t.pc == Done
    ensures Core(c, InputLines(files), m) && m.pc == Output && m.sorts == t.sorts
    ensures MergeRun(LinesOf(m.chunks), out) && t.output == Unlines(out) && SplitLines(t.output) == out
  {
    ReachableInv(c, files, t, liberal);
    m :| Core(c, InputLines(files), m) && MergeAll(c, m, t);
    out :| MergeRun(LinesOf(m.chunks), out) && t == m.(pc := Done, chunks := [], output := Unlines(out));
    C.MergeFree(m.chunks, out);
    SplitUnlines(out);
  }

  /**
   In every run in which no empty batch is submitted, every chunk in the vector or in a job is sorted
   and non-empty, in every state.
   */
  lemma ChunksStaySorted(c: Config, files: seq<seq<byte>>, t: State, liberal: bool)
    requires ValidConfig(c) && Reachable(c, files, t, liberal) && [] !in t.sorts
    ensures AllClean(t)
  {
    ReachableInv(c, files, t, liberal);
  }

  /** ... and the output is the sorted input, each line followed by a newline. */
  lemma OutputIsSorted(c: Config, files: seq<seq<byte>>, t: State, liberal: bool)
    requires ValidConfig(c) && Reachable(c, files, t, liberal) && t.pc == Done
    requires [] !in Plan(c, InputLines(files))
    ensures t.output == Unlines(SortLines(InputLines(files)))
  {
    var m, out := FinalMergeOf(c, files, t, liberal);
    BatchesArePlanned(c, files, t, liberal);
    CleanIsGood(m.chunks);
    MergeSorts(LinesOf(m.chunks), out);
    OutputIsPermutation(c, files, t, liberal);
    SortLinesSorted(InputLines(files));
    SortedUnique(out, SortLines(InputLines(files)));
  }
}
