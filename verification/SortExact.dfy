/** Exactly which inputs every run of `sort` sorts, for all options. */
module SortExact {
  import opened Bytes
  import opened Lines
  import opened Merging
  import opened SortJobs
  import opened SortSystem
  import P = Pool
  import C = SortConservation
  import opened SortPlan
  import opened SortShapes
  import opened SortCorrectness
  import opened SortOneBatch
  import opened SortSchedules
  import opened SortCritical

  /** No batch is empty, or one batch holds all lines, or all lines are the same. */
  ghost predicate SureToSort(c: Config, input: Merging.Lines)
    requires ValidConfig(c)
  {
    [] !in Plan(c, input) || input in Plan(c, input) || AllEqual(multiset(input))
  }

  lemma SureRunsSort(c: Config, files: seq<seq<byte>>, t: State, liberal: bool)
    requires ValidConfig(c) && SureToSort(c, InputLines(files))
    requires Reachable(c, files, t, liberal) && t.pc == Done
    ensures Sorted(SplitLines(t.output))
  {
    var input := InputLines(files);
    if [] !in Plan(c, input) {
      OutputIsSorted(c, files, t, liberal);
      C.InputFree(files);
      SortedOutput(input);
    } else if input in Plan(c, input) {
      OneBatchSorts(c, files, t, liberal);
    } else {
      OutputIsPermutation(c, files, t, liberal);
      AllEqualSorted(SplitLines(t.output));
    }
  }

  /** So the lines come out in this order: at the first place where two differ, the earlier one is smaller or ends. */
  lemma OutputIsAscending(c: Config, files: seq<seq<byte>>, t: State, liberal: bool, i: nat, j: nat)
    requires ValidConfig(c) && SureToSort(c, InputLines(files))
    requires Reachable(c, files, t, liberal) && t.pc == Done && i < j < |SplitLines(t.output)|
    ensures var a, b := SplitLines(t.output)[i].bytes, SplitLines(t.output)[j].bytes;
            exists k: nat ::
              && k <= |a| && k <= |b| && a[..k] == b[..k]
              && (k == |a| || (k < |b| && a[k] < b[k]))
  {
    SureRunsSort(c, files, t, liberal);
    LeqIff(SplitLines(t.output)[i], SplitLines(t.output)[j]);
  }

  lemma SortedOutput(input: Merging.Lines)
    requires NewlineFree(input)
    ensures Sorted(SplitLines(Unlines(SortLines(input))))
  {
    SortLinesSorted(input);
    forall y | y in multiset(input) ensures NEWLINE !in y.bytes {
      var n :| 0 <= n < |input| && input[n] == y;
    }
    C.SameLinesFree(SortLines(input), multiset(input));
    SplitUnlines(SortLines(input));
  }

  // ---------- batches that were not merged are parts ----------

  ghost predicate SmallJob(input: Merging.Lines, job: Job) {
    job.Sort? ==> |job.lines| < |input|
  }

  /** Every batch that was sent and not yet merged is smaller than the input. */
  ghost predicate SmallParts(input: Merging.Lines, s: State) {
    && (forall n :: 0 <= n < |s.chunks| && Mergeable(s.chunks[n]) ==> |s.chunks[n].lines| < |input|)
    && (forall n :: 0 <= n < |s.pool.queue| ==> SmallJob(input, s.pool.queue[n]))
    && (forall w :: 0 <= w < |s.pool.workers| && s.pool.workers[w].Running? ==> SmallJob(input, s.pool.workers[w].job))
    && (forall n :: 0 <= n < |s.pending| ==> !s.pending[n].Sort?)
  }

  lemma {:induction false} KeptUnmergeable(all: seq<Chunk>)
    ensures forall n :: 0 <= n < |Kept(all)| ==> !Mergeable(Kept(all)[n])
    ensures Taken(Kept(all)) == []
  {
    if all == [] {
    } else {
      KeptUnmergeable(all[1..]);
      if !Mergeable(all[0]) {
        assert Kept(all)[0] == all[0] && Kept(all)[1..] == Kept(all[1..]);
      } else {
        assert [] + Kept(all[1..]) == Kept(all[1..]);
      }
    }
  }

  lemma TakeSmallParts(c: Config, input: Merging.Lines, s: State, t: State)
    requires SmallParts(input, s) && TakeChunks(c, s, t)
    ensures SmallParts(input, t)
  {
    KeptUnmergeable(s.chunks);
    GroupsAreMerges(Taken(s.chunks), s.bytes > c.bufferSize);
  }

  lemma SendSmallParts(c: Config, input: Merging.Lines, s: State, t: State)
    requires SmallParts(input, s) && (SendMerge(c, s, t) || (SendSort(c, s, t) && |s.lines| < |input|))
    ensures SmallParts(input, t)
  {
  }

  lemma SameSmallParts(input: Merging.Lines, s: State, t: State)
    requires SmallParts(input, s) && t.pending == s.pending
    requires t.pool.queue == s.pool.queue && t.pool.workers == s.pool.workers
    requires t.chunks == s.chunks || t.chunks == []
    ensures SmallParts(input, t)
  {
  }

  lemma MainSmallParts(c: Config, input: Merging.Lines, s: State, t: State)
    requires ValidConfig(c) && Core(c, input, s) && input !in Plan(c, input)
    requires SmallParts(input, s) && MainNext(c, s, t)
    ensures SmallParts(input, t)
  {
    if TakeChunks(c, s, t) {
      TakeSmallParts(c, input, s, t);
    } else if SendSort(c, s, t) {
      NextBatchIsPlanned(c, input, s);
      BatchIsPart(c, input, s.lines);
      SendSmallParts(c, input, s, t);
    } else if SendMerge(c, s, t) {
      SendSmallParts(c, input, s, t);
    } else if MergeAll(c, s, t) {
      OutputStep(c, s, t);
      SameSmallParts(input, s, t);
    } else {
      QuietStep(c, s, t);
      SameSmallParts(input, s, t);
    }
  }

  lemma WorkerSmallParts(input: Merging.Lines, s: State, t: State, w: nat, early: bool)
    requires SmallParts(input, s) && WorkerNext(s, t, w, early)
    ensures SmallParts(input, t)
  {
    if chunk :| FinishJob(s, t, w, chunk) {
      var job := s.pool.workers[w].job;
      assert SmallJob(input, job);
      if job.Sort? {
        SizeOf(chunk.lines, multiset(job.lines));
      }
    }
  }

  ghost predicate SmallInv(c: Config, input: Merging.Lines, s: State)
    requires ValidConfig(c)
  {
    Inv(c, input, s) && SmallParts(input, s)
  }

  lemma SmallIsInductive(c: Config, input: Merging.Lines)
    requires ValidConfig(c) && input !in Plan(c, input)
    ensures Inductive(c, s => SmallInv(c, input, s), false)
  {
    forall s, t | SmallInv(c, input, s) && Next(c, s, t, false) ensures SmallInv(c, input, t) {
      NextInv(c, input, s, t, false);
      if MainNext(c, s, t) {
        MainSmallParts(c, input, s, t);
      } else {
        var w: nat, early: bool :| (early ==> false) && WorkerNext(s, t, w, early);
        WorkerSmallParts(input, s, t, w, early);
      }
    }
  }

  lemma ReachableSmall(c: Config, files: seq<seq<byte>>, s: State)
    requires ValidConfig(c) && InputLines(files) !in Plan(c, InputLines(files)) && Reachable(c, files, s, false)
    ensures SmallInv(c, InputLines(files), s)
  {
    var input := InputLines(files);
    InitInv(c, files);
    SmallIsInductive(c, input);
    var n: nat :| ReachesIn(c, Init(c, input), s, false, n);
    InductiveHolds(c, x => SmallInv(c, input, x), Init(c, input), s, false, n);
  }

  // ---------- a stall ----------

  lemma {:induction false} EmptiesOccur(chunks: seq<Chunk>, x: Line)
    requires forall n :: 0 <= n < |chunks| ==> chunks[n] == EMPTY_CHUNK
    ensures C.ChunksOccur(chunks, x) == 0
  {
    if chunks == [] {
    } else {
      EmptiesOccur(chunks[1..], x);
    }
  }

  /** The chunks merged after a stall hold no more than what was read. */
  lemma StallHolds(input: Merging.Lines, s: State, n: nat, x: Line)
    requires HoldsInput(input, s)
    ensures Union(LinesOf(Taken(s.chunks) + Empties(n)))[x] + C.Occurs(s.unread, x) <= multiset(input)[x]
  {
    C.UnionOccurs(Taken(s.chunks) + Empties(n), x);
    C.ChunksConcat(Taken(s.chunks), Empties(n), x);
    EmptiesOccur(Empties(n), x);
    C.RegroupOccurs(s.chunks, x);
    assert C.Total(s, x) == C.Occurs(input, x);
  }

  lemma SubBag(a: multiset<Line>, b: multiset<Line>)
    requires forall x :: a[x] <= b[x]
    ensures |a| <= |b|
    ensures |a| == |b| ==> a == b
  {
    assert b == a + (b - a);
  }

  /** The chunks merged after a stall are all the lines only when nothing is left to read. */
  lemma StallSize(input: Merging.Lines, s: State, n: nat)
    requires HoldsInput(input, s)
    ensures var all := Union(LinesOf(Taken(s.chunks) + Empties(n)));
            && |all| + |s.unread| <= |input|
            && (|all| == |input| ==> all == multiset(input))
  {
    var all := Union(LinesOf(Taken(s.chunks) + Empties(n)));
    forall x ensures (all + multiset(s.unread))[x] <= multiset(input)[x] {
      StallHolds(input, s, n, x);
    }
    SubBag(all + multiset(s.unread), multiset(input));
    assert |multiset(input)| == |input| && |multiset(s.unread)| == |s.unread|;
    if |all| == |input| {
      assert multiset(s.unread) == multiset{};
      assert all + multiset{} == all;
    }
  }

  /** An idle state at the head of the loop whose bytes stand at the buffer size. */
  ghost predicate Stalled(c: Config, files: seq<seq<byte>>, s: State) {
    && Reachable(c, files, s, false) && s.pc == Head && !s.exhausted && Idle(s.pool) && [] !in s.sorts
    && s.bytes == c.bufferSize && 1 <= s.batches <= N_WAY_MERGE && |Taken(s.chunks)| == s.batches
  }

  lemma TakenIsClean(chunks: seq<Chunk>, n: nat)
    requires ChunksClean(chunks) && n < |Taken(chunks)|
    ensures ChunkClean(Taken(chunks)[n])
  {
    KeptClean(chunks);
  }

  lemma {:induction false} TakenIsSmall(input: Merging.Lines, chunks: seq<Chunk>, n: nat)
    requires forall k :: 0 <= k < |chunks| && Mergeable(chunks[k]) ==> |chunks[k].lines| < |input|
    requires n < |Taken(chunks)|
    ensures |Taken(chunks)[n].lines| < |input|
  {
    if Mergeable(chunks[0]) {
      assert Taken(chunks) == [chunks[0]] + Taken(chunks[1..]);
      if n > 0 {
        TakenIsSmall(input, chunks[1..], n - 1);
      }
    } else {
      assert [] + Taken(chunks[1..]) == Taken(chunks[1..]);
      TakenIsSmall(input, chunks[1..], n);
    }
  }

  lemma PartResult(input: Merging.Lines, heap: seq<Merging.Lines>) returns (out: Merging.Lines)
    requires heap != [] && heap[0] != [] && |Union(heap)| < |input|
    ensures MergeRun(heap, out) && Part(input, out)
  {
    out := MergeTotal(heap);
    MergeConserves(heap, out);
    UnionMember(heap, heap[0][0]);
    assert heap[0][0] in multiset(out);
    assert |multiset(out)| == |out|;
  }

  lemma UnsortedResult(input: Merging.Lines, heap: seq<Merging.Lines>, e: nat) returns (out: Merging.Lines)
    requires heap != [] && Part(input, heap[0]) && e < |heap| && heap[e] == []
    requires Union(heap) == multiset(input) && !AllEqual(multiset(input))
    ensures MergeRun(heap, out) && !Sorted(out)
  {
    PartLeavesMore(input, heap, 0);
    out := UnsafeMayFail(heap);
  }

  lemma StallHeap(c: Config, files: seq<seq<byte>>, s: State) returns (heap: seq<Merging.Lines>)
    requires ValidConfig(c) && !SureToSort(c, InputLines(files)) && Stalled(c, files, s)
    ensures heap == LinesOf(Taken(s.chunks) + Empties(N_WAY_MERGE - s.batches))
    ensures |heap| == N_WAY_MERGE && Part(InputLines(files), heap[0])
    ensures s.batches < N_WAY_MERGE ==> heap[N_WAY_MERGE - 1] == []
  {
    ReachableSmall(c, files, s);
    heap := LinesOf(Taken(s.chunks) + Empties(N_WAY_MERGE - s.batches));
    TakenIsClean(s.chunks, 0);
    TakenIsSmall(InputLines(files), s.chunks, 0);
    assert heap[0] == Taken(s.chunks)[0].lines;
  }

  /** What the first merge job after a stall can produce. */
  lemma StallResult(c: Config, files: seq<seq<byte>>, s: State) returns (out: Merging.Lines)
    requires ValidConfig(c) && !SureToSort(c, InputLines(files)) && Stalled(c, files, s)
    requires s.unread != [] || s.batches < N_WAY_MERGE
    ensures MergeRun(LinesOf(Taken(s.chunks) + Empties(N_WAY_MERGE - s.batches)), out)
    ensures Part(InputLines(files), out) || !Sorted(out)
  {
    var input := InputLines(files);
    ReachableInv(c, files, s, false);
    StallSize(input, s, N_WAY_MERGE - s.batches);
    var heap := StallHeap(c, files, s);
    if |Union(heap)| < |input| {
      out := PartResult(input, heap);
    } else {
      out := UnsortedResult(input, heap, N_WAY_MERGE - 1);
    }
  }

  lemma StalledIsCritical(c: Config, files: seq<seq<byte>>, s: State) returns (t: State)
    requires ValidConfig(c) && !SureToSort(c, InputLines(files)) && Stalled(c, files, s)
    requires s.unread != [] || s.batches < N_WAY_MERGE
    ensures Reachable(c, files, t, false) && Critical(c, InputLines(files), t)
  {
    ReachableInv(c, files, s, false);
    var out := StallResult(c, files, s);
    t := StallAndMerge(c, s, out);
    ReachableThen(c, files, s, t, false);
    var e, m := Chunk([], true, false), Chunk(out, true, false);
    assert e in t.chunks && m in t.chunks;
    assert Part(InputLines(files), out) ==> DoomedPair(InputLines(files), e, m);
  }

  // ---------- the last batch with lines ----------

  /** A batch of lines was sent, after others had been sorted. */
  ghost predicate Pending(c: Config, files: seq<seq<byte>>, s: State, batch: Merging.Lines) {
    && Reachable(c, files, s, false) && s.pc == Decide && !s.exhausted && Sent(s.pool, Sort(batch)) && [] !in s.sorts
    && Part(InputLines(files), batch) && |Taken(s.chunks)| == s.batches - 1
  }

  lemma TailStart(c: Config, files: seq<seq<byte>>, s: State, t: State, batch: Merging.Lines)
    requires ValidConfig(c) && Reachable(c, files, s, false) && Reaches(c, s, t, false)
    requires t.unread == [] && !t.exhausted && NoMoreTakes(c, t) && Part(InputLines(files), batch)
    requires (t.pool.queue != [] && t.pool.queue[0] == Sort(batch))
          || (t.pool.workers != [] && t.pool.workers[0] == P.Running(Sort(batch)))
    ensures Reachable(c, files, t, false) && Critical(c, InputLines(files), t)
  {
    ReachableThen(c, files, s, t, false);
    ReachableInv(c, files, t, false);
    var input := InputLines(files);
    if t.pool.queue != [] && t.pool.queue[0] == Sort(batch) {
      assert LooseJob(input, t.pool.queue[0]);
    } else {
      assert t.pool.workers[0].Running? && LooseJob(input, t.pool.workers[0].job);
    }
  }

  /** The fifth batch is held back while a sixth, empty one makes the main thread regroup. */
  lemma HoldFifth(c: Config, files: seq<seq<byte>>, s: State, batch: Merging.Lines) returns (t: State)
    requires ValidConfig(c) && Pending(c, files, s, batch) && s.unread == []
    requires s.bytes == c.bufferSize && s.batches == N_WAY_MERGE
    ensures Reachable(c, files, t, false) && Critical(c, InputLines(files), t)
  {
    ReachableInv(c, files, s, false);
    var b := StartJob(c, s, Sort(batch));
    var h := SkipPath(c, b);
    var e := SendEmptyPath(c, h);
    t := TakePath(c, e);
    ReachesTransitive(c, s, b, h, false);
    ReachesTransitive(c, s, h, e, false);
    ReachesTransitive(c, s, e, t, false);
    TailStart(c, files, s, t, batch);
  }

  /** The batch is sorted at once, and the loop goes on. */
  lemma SortAndSkip(c: Config, files: seq<seq<byte>>, s: State, batch: Merging.Lines) returns (t: State)
    requires ValidConfig(c) && Pending(c, files, s, batch) && !MustMerge(c, s)
    ensures Reachable(c, files, t, false) && Idle(t.pool) && |Taken(t.chunks)| == t.batches
    ensures t == s.(pc := Head, pool := t.pool, chunks := t.chunks)
  {
    var chunk := Chunk(SortLines(batch), false, false);
    var r := RunSent(c, s, Sort(batch), chunk);
    KeptSnoc(s.chunks, chunk);
    t := SkipPath(c, r);
    ReachesTransitive(c, s, r, t, false);
    ReachableThen(c, files, s, t, false);
  }

  /** When no lines are left to read, the last batch can be kept from being merged before the end. */
  lemma LastSent(c: Config, files: seq<seq<byte>>, s: State, batch: Merging.Lines) returns (t: State)
    requires ValidConfig(c) && !SureToSort(c, InputLines(files)) && Pending(c, files, s, batch) && s.unread == []
    ensures Reachable(c, files, t, false) && Critical(c, InputLines(files), t)
  {
    ReachableInv(c, files, s, false);
    if MustMerge(c, s) {
      t := TakePath(c, s);
      TailStart(c, files, s, t, batch);
    } else if s.bytes < c.bufferSize {
      t := SkipPath(c, s);
      TailStart(c, files, s, t, batch);
    } else if s.batches == N_WAY_MERGE {
      t := HoldFifth(c, files, s, batch);
    } else {
      var h := SortAndSkip(c, files, s, batch);
      t := StalledIsCritical(c, files, h);
    }
  }

  // ---------- the run ----------

  /** An idle state at the head of the loop that will read more lines. */
  ghost predicate Eager(c: Config, files: seq<seq<byte>>, s: State) {
    && Reachable(c, files, s, false) && s.pc == Head && !s.exhausted && Idle(s.pool) && [] !in s.sorts
    && |Taken(s.chunks)| == s.batches && s.bytes < c.bufferSize && s.unread != []
  }

  lemma MergeAndGoOn(c: Config, files: seq<seq<byte>>, s: State, batch: Merging.Lines) returns (t: State)
    requires ValidConfig(c) && Pending(c, files, s, batch) && MustMerge(c, s) && s.unread != []
    ensures Eager(c, files, t) && t.unread == s.unread
  {
    ReachableInv(c, files, s, false);
    var r := RunSent(c, s, Sort(batch), Chunk(SortLines(batch), false, false));
    var k := TakePath(c, r);
    GroupsAreMerges(Taken(r.chunks), r.bytes > c.bufferSize);
    KeptUnmergeable(r.chunks);
    t := MergeAllPath(c, k);
    ReachesTransitive(c, s, r, k, false);
    ReachesTransitive(c, s, k, t, false);
    ReachableThen(c, files, s, t, false);
  }

  /** The next step of the run: it goes on, or it has come to a critical state. */
  lemma AfterSend(c: Config, files: seq<seq<byte>>, s: State, batch: Merging.Lines) returns (t: State)
    requires ValidConfig(c) && !SureToSort(c, InputLines(files)) && Pending(c, files, s, batch)
    ensures (Eager(c, files, t) && t.unread == s.unread)
         || (Reachable(c, files, t, false) && Critical(c, InputLines(files), t))
  {
    ReachableInv(c, files, s, false);
    if s.unread == [] {
      t := LastSent(c, files, s, batch);
    } else if MustMerge(c, s) {
      t := MergeAndGoOn(c, files, s, batch);
    } else {
      t := SortAndSkip(c, files, s, batch);
      if s.bytes == c.bufferSize {
        t := StalledIsCritical(c, files, t);
      }
    }
  }

  lemma LastOfPlan(c: Config, input: Merging.Lines, s: State)
    requires ValidConfig(c) && Core(c, input, s) && s.pc == SubmitSort && s.exhausted
    ensures Plan(c, input) == s.sorts + [s.lines]
  {
    assert [s.lines] + [] == [s.lines];
  }

  /** A batch with lines that was not ended by the end of the input, when some batch of the plan is empty. */
  lemma MoreBatches(c: Config, files: seq<seq<byte>>, s: State)
    requires ValidConfig(c) && [] in Plan(c, InputLines(files)) && Reachable(c, files, s, false)
    requires s.pc == SubmitSort && s.lines != [] && [] !in s.sorts
    ensures !s.exhausted
  {
    ReachableInv(c, files, s, false);
    if s.exhausted {
      LastOfPlan(c, InputLines(files), s);
    }
  }

  lemma NextIsPart(c: Config, files: seq<seq<byte>>, s: State)
    requires ValidConfig(c) && InputLines(files) !in Plan(c, InputLines(files)) && Reachable(c, files, s, false)
    requires s.pc == SubmitSort && s.lines != []
    ensures Part(InputLines(files), s.lines)
  {
    ReachableInv(c, files, s, false);
    NextBatchIsPlanned(c, InputLines(files), s);
    BatchIsPart(c, InputLines(files), s.lines);
  }

  /** The next batch is collected and sent. */
  lemma EagerSend(c: Config, files: seq<seq<byte>>, s: State) returns (t: State, batch: Merging.Lines)
    requires ValidConfig(c) && !SureToSort(c, InputLines(files)) && Eager(c, files, s)
    ensures Pending(c, files, t, batch) && |t.unread| < |s.unread|
  {
    ReachableInv(c, files, s, false);
    var r := CollectPath(c, s);
    ReachableThen(c, files, s, r, false);
    MoreBatches(c, files, r);
    NextIsPart(c, files, r);
    t := SendPath(c, r);
    batch := r.lines;
    ReachableThen(c, files, r, t, false);
  }

  lemma EagerRound(c: Config, files: seq<seq<byte>>, s: State) returns (t: State)
    requires ValidConfig(c) && !SureToSort(c, InputLines(files)) && Eager(c, files, s)
    ensures (Eager(c, files, t) && |t.unread| < |s.unread|)
         || (Reachable(c, files, t, false) && Critical(c, InputLines(files), t))
  {
    var d, batch := EagerSend(c, files, s);
    t := AfterSend(c, files, d, batch);
  }

  lemma {:induction false} EagerRun(c: Config, files: seq<seq<byte>>, s: State) returns (t: State)
    requires ValidConfig(c) && !SureToSort(c, InputLines(files)) && Eager(c, files, s)
    ensures Reachable(c, files, t, false) && Critical(c, InputLines(files), t)
    decreases |s.unread|
  {
    t := EagerRound(c, files, s);
    if !Critical(c, InputLines(files), t) {
      t := EagerRun(c, files, t);
    }
  }

  /** The start is such a state, as there are lines to read. */
  lemma EagerStart(c: Config, files: seq<seq<byte>>)
    requires ValidConfig(c) && !SureToSort(c, InputLines(files))
    ensures Eager(c, files, Init(c, InputLines(files)))
  {
    ReachesOne(c, Init(c, InputLines(files)), Init(c, InputLines(files)), false);
  }

  /**
   Otherwise there is a run, of the program as written, whose output is not sorted: for some choice of
   the heap.  Its contract leaves every choice open while an empty chunk is in it, and nothing more is
   assumed of the order in which a heap keeps its chunks.
   */
  lemma UnsortedRun(c: Config, files: seq<seq<byte>>, liberal: bool) returns (t: State)
    requires ValidConfig(c) && !SureToSort(c, InputLines(files))
    ensures Reachable(c, files, t, liberal) && t.pc == Done && !Sorted(SplitLines(t.output))
  {
    var input := InputLines(files);
    var start := Init(c, input);
    EagerStart(c, files);
    var s := EagerRun(c, files, start);
    t := CriticalEnds(c, files, s);
    ReachesLiberally(c, start, t, liberal);
  }

  /**
   All runs write sorted output if and only if no batch of the plan is empty, or one batch holds all
   lines, or all lines are the same.  This holds of the written system and of the liberal one, and the
   runs range over all choices that the contract of the heap leaves open.
   */
  lemma SortsIff(c: Config, files: seq<seq<byte>>, liberal: bool)
    requires ValidConfig(c)
    ensures (forall t :: Reachable(c, files, t, liberal) && t.pc == Done ==> Sorted(SplitLines(t.output)))
       <==> SureToSort(c, InputLines(files))
  {
    if SureToSort(c, InputLines(files)) {
      forall t | Reachable(c, files, t, liberal) && t.pc == Done ensures Sorted(SplitLines(t.output)) {
        SureRunsSort(c, files, t, liberal);
      }
    } else {
      var t := UnsortedRun(c, files, liberal);
    }
  }

  // ---------- the default buffer ----------

  ghost predicate BufferSuffices(c: Config, input: Merging.Lines) {
    BytesIn(input) < c.bufferSize
  }

  /** With a buffer larger than the input, as by default, only the number of lines and the batch size matter. */
  lemma SureWithLargeBuffer(c: Config, input: Merging.Lines)
    requires ValidConfig(c) && BufferSuffices(c, input)
    ensures SureToSort(c, input)
       <==> |input| % c.batchSize != 0 || |input| <= c.batchSize || AllEqual(multiset(input))
  {
    EmptyBatchIff(c, input, [], 0, 0);
    if |input| <= c.batchSize {
      OneBatchHoldsAll(c, input, [], 0, 0);
      assert [] + input == input;
    }
    if input in Plan(c, input) {
      PlanCutsInput(c, input, [], 0, 0);
      var i :| 0 <= i < |Plan(c, input)| && Plan(c, input)[i] == input;
    }
  }

  /** The two-line file "b", "a" with one line per batch: for some choice of the heap it comes out as it is. */
  lemma UnsortedExample() returns (t: State)
    ensures Reachable(Config(1, 100, 1), [[98, 10, 97, 10]], t, false)
    ensures t.pc == Done && t.output == [98, 10, 97, 10]
  {
    var c := Config(1, 100, 1);
    var b, a := Line([98]), Line([97]);
    var files := [[98, 10, 97, 10]];
    TwoLines(b, a);
    assert InputLines(files) == SplitLines(files[0]) + InputLines([]);
    assert InputLines(files) == [b, a];
    assert b in multiset([b, a]) && a in multiset([b, a]) && a != b;
    SureWithLargeBuffer(c, [b, a]);
    t := UnsortedRun(c, files, false);
    OutputIsPermutation(c, files, t, false);
    OutputIsLines(c, files, t, false);
    TwoOrders(SplitLines(t.output), b, a);
  }

  lemma TwoOrders(lines: Merging.Lines, b: Line, a: Line)
    requires multiset(lines) == multiset([b, a]) && !Sorted(lines)
    requires b.bytes == [98] && a.bytes == [97]
    ensures lines == [b, a]
  {
    assert |lines| == |multiset(lines)| == 2;
    assert lines[0] in multiset(lines) && lines[1] in multiset(lines);
    assert lines == [lines[0], lines[1]];
    LeqReflexive(lines[0]);
    assert multiset(lines)[b] == multiset([b, a])[b] == 1;
  }

  lemma TwoLines(b: Line, a: Line)
    requires b.bytes == [98] && a.bytes == [97]
    ensures SplitLines([98, 10, 97, 10]) == [b, a] && BytesIn([b, a]) == 2
    ensures Unlines([b, a]) == [98, 10, 97, 10]
  {
    UnlinesCons(b, [a]);
    UnlinesCons(a, []);
    assert [b] + [a] == [b, a] && [a] + [] == [a];
    assert Unlines([b, a]) == [98, 10, 97, 10];
    SplitUnlines([b, a]);
    assert [b, a][1..] == [a] && [a][1..] == [];
    assert BytesIn([a]) == 1 + BytesIn([]);
  }
}
