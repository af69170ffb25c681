/** The chunks and jobs of every reachable state of `sort`: their sizes, their kinds, and their order. */
module SortShapes {
  import opened Bytes
  import opened Merging
  import opened SortJobs
  import opened SortSystem
  import P = Pool
  import C = SortConservation

  // ---------- kinds and sizes ----------

  /** Chunks that were not merged are sorted batches; a merged chunk holds at most five of them. */
  ghost predicate ChunkShape(c: Config, chunk: Chunk) {
    && |chunk.lines| <= (if chunk.merged then N_WAY_MERGE * c.batchSize else c.batchSize)
    && (chunk.flushed ==> chunk.merged)
    && (!chunk.merged ==> Sorted(chunk.lines))
  }

  ghost predicate ChunksShape(c: Config, chunks: seq<Chunk>) {
    forall n :: 0 <= n < |chunks| ==> ChunkShape(c, chunks[n])
  }

  ghost predicate AllMergeable(chunks: seq<Chunk>) {
    forall n :: 0 <= n < |chunks| ==> Mergeable(chunks[n])
  }

  /** A merge job has one to five chunks, none of them merged or flushed before. */
  ghost predicate JobShape(c: Config, job: Job) {
    if job.Sort? then |job.lines| <= c.batchSize
    else 1 <= |job.chunks| <= N_WAY_MERGE && AllMergeable(job.chunks) && ChunksShape(c, job.chunks)
  }

  ghost predicate JobsShape(c: Config, jobs: seq<Job>) {
    forall n :: 0 <= n < |jobs| ==> JobShape(c, jobs[n])
  }

  ghost predicate Shapes(c: Config, s: State) {
    && JobsShape(c, s.pending) && JobsShape(c, s.pool.queue) && ChunksShape(c, s.chunks)
    && forall w :: 0 <= w < |s.pool.workers| && s.pool.workers[w].Running? ==> JobShape(c, s.pool.workers[w].job)
  }

  lemma {:induction false} KeptShape(c: Config, all: seq<Chunk>)
    requires ChunksShape(c, all)
    ensures ChunksShape(c, Kept(all)) && ChunksShape(c, Taken(all)) && AllMergeable(Taken(all))
  {
    if all == [] {
    } else {
      KeptShape(c, all[1..]);
    }
  }

  lemma {:induction false} GroupsShape(c: Config, chunks: seq<Chunk>, flush: bool)
    requires ChunksShape(c, chunks) && AllMergeable(chunks)
    ensures JobsShape(c, GroupJobs(chunks, flush))
  {
    if |chunks| <= N_WAY_MERGE {
    } else {
      GroupsShape(c, chunks[N_WAY_MERGE..], flush);
    }
  }

  /** The size of a merge is the size of its parts. */
  lemma {:induction false} UnionSize(c: Config, chunks: seq<Chunk>)
    requires ChunksShape(c, chunks) && AllMergeable(chunks)
    ensures |Union(LinesOf(chunks))| <= |chunks| * c.batchSize
  {
    if chunks == [] {
    } else {
      assert LinesOf(chunks)[1..] == LinesOf(chunks[1..]);
      UnionSize(c, chunks[1..]);
      assert |multiset(chunks[0].lines)| == |chunks[0].lines| <= c.batchSize;
      assert |chunks| * c.batchSize == c.batchSize + (|chunks| - 1) * c.batchSize;
    }
  }

  lemma TimesMonotonic(a: nat, b: nat, m: nat)
    requires a <= b
    ensures a * m <= b * m
  {
  }

  lemma MergeShape(c: Config, chunks: seq<Chunk>, out: Merging.Lines)
    requires |chunks| <= N_WAY_MERGE && AllMergeable(chunks) && ChunksShape(c, chunks)
    requires MergeRun(LinesOf(chunks), out)
    ensures |out| <= N_WAY_MERGE * c.batchSize
  {
    MergeConserves(LinesOf(chunks), out);
    UnionSize(c, chunks);
    SizeOf(out, Union(LinesOf(chunks)));
    TimesMonotonic(|chunks|, N_WAY_MERGE, c.batchSize);
  }

  lemma SizeOf(out: Merging.Lines, bag: multiset<Line>)
    requires multiset(out) == bag
    ensures |out| == |bag|
  {
  }

  lemma ResultShape(c: Config, job: Job, chunk: Chunk)
    requires JobShape(c, job) && C.JobFree(job) && JobResult(job, chunk)
    ensures ChunkShape(c, chunk)
  {
    if job.Sort? {
      SortLinesSorted(job.lines);
      assert |chunk.lines| == |multiset(chunk.lines)| == |multiset(job.lines)| == |job.lines|;
    } else {
      C.ResultFree(job, chunk);
      MergeShape(c, job.chunks, chunk.lines);
    }
  }

  lemma TakeChunksShapes(c: Config, s: State, t: State)
    requires Shapes(c, s) && TakeChunks(c, s, t)
    ensures Shapes(c, t)
  {
    KeptShape(c, s.chunks);
    GroupsShape(c, Taken(s.chunks), s.bytes > c.bufferSize);
  }

  lemma SendShapes(c: Config, s: State, t: State)
    requires Control(c, s) && Shapes(c, s) && (SendSort(c, s, t) || SendMerge(c, s, t))
    ensures Shapes(c, t)
  {
  }

  lemma MainShapes(c: Config, s: State, t: State)
    requires Control(c, s) && Shapes(c, s) && MainNext(c, s, t)
    ensures Shapes(c, t)
  {
    if TakeChunks(c, s, t) {
      TakeChunksShapes(c, s, t);
    } else if SendSort(c, s, t) || SendMerge(c, s, t) {
      SendShapes(c, s, t);
    } else if MergeAll(c, s, t) {
    } else {
      QuietStep(c, s, t);
    }
  }

  lemma WorkerShapes(c: Config, s: State, t: State, w: nat, early: bool)
    requires C.Free(s) && Shapes(c, s) && WorkerNext(s, t, w, early)
    ensures Shapes(c, t)
  {
    if chunk :| FinishJob(s, t, w, chunk) {
      ResultShape(c, s.pool.workers[w].job, chunk);
    }
  }

  // ---------- order ----------

  ghost predicate ChunkClean(chunk: Chunk) {
    chunk.lines != [] && Sorted(chunk.lines)
  }

  ghost predicate ChunksClean(chunks: seq<Chunk>) {
    forall n :: 0 <= n < |chunks| ==> ChunkClean(chunks[n])
  }

  ghost predicate JobClean(job: Job) {
    if job.Sort? then job.lines != [] else job.chunks != [] && ChunksClean(job.chunks)
  }

  ghost predicate JobsClean(jobs: seq<Job>) {
    forall n :: 0 <= n < |jobs| ==> JobClean(jobs[n])
  }

  /** Every chunk, in the vector or in a job, is sorted and not empty. */
  ghost predicate AllClean(s: State) {
    && JobsClean(s.pending) && JobsClean(s.pool.queue) && ChunksClean(s.chunks)
    && forall w :: 0 <= w < |s.pool.workers| && s.pool.workers[w].Running? ==> JobClean(s.pool.workers[w].job)
  }

  /** No empty batch has been submitted. */
  ghost predicate NoEmptySort(s: State) {
    [] !in s.sorts
  }

  lemma {:induction false} KeptClean(all: seq<Chunk>)
    requires ChunksClean(all)
    ensures ChunksClean(Kept(all)) && ChunksClean(Taken(all))
  {
    if all == [] {
    } else {
      KeptClean(all[1..]);
    }
  }

  lemma {:induction false} GroupsClean(chunks: seq<Chunk>, flush: bool)
    requires ChunksClean(chunks)
    ensures JobsClean(GroupJobs(chunks, flush))
  {
    if |chunks| <= N_WAY_MERGE {
    } else {
      GroupsClean(chunks[N_WAY_MERGE..], flush);
    }
  }

  /** Clean chunks merge to a clean chunk. */
  lemma MergeClean(chunks: seq<Chunk>, out: Merging.Lines)
    requires chunks != [] && ChunksClean(chunks) && MergeRun(LinesOf(chunks), out)
    ensures out != [] && Sorted(out)
  {
    var heap := LinesOf(chunks);
    forall n | 0 <= n < |heap| ensures heap[n] != [] && Sorted(heap[n]) {
      assert ChunkClean(chunks[n]);
    }
    MergeSorts(heap, out);
    MergeConserves(heap, out);
    assert ChunkClean(chunks[0]);
    UnionMember(heap, heap[0][0]);
    assert heap[0][0] in multiset(out);
  }

  lemma ResultClean(job: Job, chunk: Chunk)
    requires C.JobFree(job) && JobClean(job) && JobResult(job, chunk)
    ensures ChunkClean(chunk)
  {
    if job.Sort? {
      SortLinesSorted(job.lines);
      assert job.lines[0] in multiset(chunk.lines);
    } else {
      C.ResultFree(job, chunk);
      MergeClean(job.chunks, chunk.lines);
    }
  }

  lemma TakeChunksClean(c: Config, s: State, t: State)
    requires AllClean(s) && TakeChunks(c, s, t)
    ensures AllClean(t)
  {
    KeptClean(s.chunks);
    GroupsClean(Taken(s.chunks), s.bytes > c.bufferSize);
  }

  lemma SendClean(c: Config, s: State, t: State)
    requires (NoEmptySort(s) ==> AllClean(s)) && (SendSort(c, s, t) || SendMerge(c, s, t))
    ensures NoEmptySort(t) ==> AllClean(t)
  {
    if SendSort(c, s, t) && NoEmptySort(t) {
      assert s.lines in t.sorts;
      assert NoEmptySort(s) by {
        assert s.sorts <= t.sorts;
      }
    }
  }

  lemma MainClean(c: Config, s: State, t: State)
    requires Control(c, s) && MainNext(c, s, t)
    requires NoEmptySort(s) ==> AllClean(s)
    ensures NoEmptySort(t) ==> AllClean(t)
  {
    if SendSort(c, s, t) || SendMerge(c, s, t) {
      SendClean(c, s, t);
    } else if NoEmptySort(s) {
      if TakeChunks(c, s, t) {
        TakeChunksClean(c, s, t);
      } else if MergeAll(c, s, t) {
      } else {
        QuietStep(c, s, t);
      }
    }
  }

  lemma WorkerClean(s: State, t: State, w: nat, early: bool)
    requires C.Free(s) && AllClean(s) && WorkerNext(s, t, w, early)
    ensures AllClean(t)
  {
    if chunk :| FinishJob(s, t, w, chunk) {
      ResultClean(s.pool.workers[w].job, chunk);
    }
  }

  lemma NextShapes(c: Config, s: State, t: State, liberal: bool)
    requires Control(c, s) && C.Free(s) && Shapes(c, s) && Next(c, s, t, liberal)
    requires NoEmptySort(s) ==> AllClean(s)
    ensures Shapes(c, t) && (NoEmptySort(t) ==> AllClean(t))
  {
    if MainNext(c, s, t) {
      MainShapes(c, s, t);
      MainClean(c, s, t);
    } else {
      var w: nat, early: bool :| (early ==> liberal) && WorkerNext(s, t, w, early);
      WorkerShapes(c, s, t, w, early);
      WorkerPool(s, t, w, early);
      if NoEmptySort(t) {
        WorkerClean(s, t, w, early);
      }
    }
  }
}
