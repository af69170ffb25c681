/** No line is lost or invented, and no line contains a newline, in any reachable state of `sort`. */
module SortConservation {
  import opened Bytes
  import opened Lines
  import opened Merging
  import opened SortJobs
  import opened SortSystem
  import P = Pool

  // ---------- how often a line occurs ----------

  ghost function Occurs(lines: Merging.Lines, x: Line): nat {
    multiset(lines)[x]
  }

  ghost function ChunksOccur(chunks: seq<Chunk>, x: Line): nat {
    if chunks == [] then 0 else Occurs(chunks[0].lines, x) + ChunksOccur(chunks[1..], x)
  }

  ghost function JobOccurs(job: Job, x: Line): nat {
    if job.Sort? then Occurs(job.lines, x) else ChunksOccur(job.chunks, x)
  }

  ghost function JobsOccur(jobs: seq<Job>, x: Line): nat {
    if jobs == [] then 0 else JobOccurs(jobs[0], x) + JobsOccur(jobs[1..], x)
  }

  ghost function WorkerOccurs(worker: P.Worker<Job>, x: Line): nat {
    if worker.Running? then JobOccurs(worker.job, x) else 0
  }

  ghost function WorkersOccur(workers: seq<P.Worker<Job>>, x: Line): nat {
    if workers == [] then 0 else WorkerOccurs(workers[0], x) + WorkersOccur(workers[1..], x)
  }

  /**
   How often a line occurs anywhere: in the unread input, the batch being built, the jobs waiting to
   be sent, queued or running, the shared chunks, and the output.
   */
  ghost function Total(s: State, x: Line): nat {
    Occurs(s.unread, x) + Occurs(s.lines, x) + JobsOccur(s.pending, x) + JobsOccur(s.pool.queue, x)
    + WorkersOccur(s.pool.workers, x) + ChunksOccur(s.chunks, x) + Occurs(SplitLines(s.output), x)
  }

  lemma OccursSnoc(lines: Merging.Lines, line: Line, x: Line)
    ensures Occurs(lines + [line], x) == Occurs(lines, x) + Occurs([line], x)
  {
  }

  lemma OccursHead(lines: Merging.Lines, x: Line)
    requires lines != []
    ensures Occurs(lines, x) == Occurs([lines[0]], x) + Occurs(lines[1..], x)
  {
    assert lines == [lines[0]] + lines[1..];
  }

  lemma {:induction false} JobsSnoc(jobs: seq<Job>, job: Job, x: Line)
    ensures JobsOccur(jobs + [job], x) == JobsOccur(jobs, x) + JobOccurs(job, x)
  {
    if jobs == [] {
      assert [] + [job] == [job];
    } else {
      assert (jobs + [job])[1..] == jobs[1..] + [job];
      JobsSnoc(jobs[1..], job, x);
    }
  }

  lemma {:induction false} ChunksConcat(a: seq<Chunk>, b: seq<Chunk>, x: Line)
    ensures ChunksOccur(a + b, x) == ChunksOccur(a, x) + ChunksOccur(b, x)
  {
    if a == [] {
      assert a + b == b;
    } else {
      assert (a + b)[1..] == a[1..] + b;
      ChunksConcat(a[1..], b, x);
    }
  }

  lemma ChunksOne(chunk: Chunk, x: Line)
    ensures ChunksOccur([chunk], x) == Occurs(chunk.lines, x)
  {
    assert [chunk][1..] == [];
  }

  lemma {:induction false} WorkersUpdate(workers: seq<P.Worker<Job>>, w: nat, changed: P.Worker<Job>, x: Line)
    requires w < |workers|
    ensures WorkersOccur(workers[w := changed], x) + WorkerOccurs(workers[w], x)
         == WorkersOccur(workers, x) + WorkerOccurs(changed, x)
  {
    if w > 0 {
      assert workers[w := changed][1..] == workers[1..][w - 1 := changed];
      WorkersUpdate(workers[1..], w - 1, changed, x);
    } else {
      assert workers[w := changed][1..] == workers[1..];
    }
  }

  /** Regrouping hands out every taken chunk once and keeps the others. */
  lemma {:induction false} RegroupOccurs(all: seq<Chunk>, x: Line)
    ensures ChunksOccur(Kept(all), x) + ChunksOccur(Taken(all), x) == ChunksOccur(all, x)
  {
    if all == [] {
    } else {
      RegroupOccurs(all[1..], x);
      ChunksConcat(if Mergeable(all[0]) then [] else [all[0]], Kept(all[1..]), x);
      ChunksConcat(if Mergeable(all[0]) then [all[0]] else [], Taken(all[1..]), x);
      ChunksOne(all[0], x);
    }
  }

  lemma {:induction false} GroupsOccur(chunks: seq<Chunk>, flush: bool, x: Line)
    ensures JobsOccur(GroupJobs(chunks, flush), x) == ChunksOccur(chunks, x)
  {
    if |chunks| <= N_WAY_MERGE {
    } else {
      var first := chunks[..N_WAY_MERGE];
      var rest := chunks[N_WAY_MERGE..];
      assert chunks == first + rest;
      GroupsOccur(rest, flush, x);
      ChunksConcat(first, rest, x);
    }
  }

  lemma {:induction false} UnionOccurs(chunks: seq<Chunk>, x: Line)
    ensures Union(LinesOf(chunks))[x] == ChunksOccur(chunks, x)
  {
    if chunks == [] {
    } else {
      assert LinesOf(chunks)[1..] == LinesOf(chunks[1..]);
      UnionOccurs(chunks[1..], x);
    }
  }

  // ---------- newline-freeness ----------

  ghost predicate ChunksFree(chunks: seq<Chunk>) {
    forall n :: 0 <= n < |chunks| ==> NewlineFree(chunks[n].lines)
  }

  ghost predicate JobFree(job: Job) {
    if job.Sort? then NewlineFree(job.lines) else ChunksFree(job.chunks)
  }

  ghost predicate JobsFree(jobs: seq<Job>) {
    forall n :: 0 <= n < |jobs| ==> JobFree(jobs[n])
  }

  /** No line anywhere contains a newline, so writing lines out and splitting them again is safe. */
  ghost predicate Free(s: State) {
    && NewlineFree(s.unread) && NewlineFree(s.lines)
    && JobsFree(s.pending) && JobsFree(s.pool.queue) && ChunksFree(s.chunks)
    && forall w :: 0 <= w < |s.pool.workers| && s.pool.workers[w].Running? ==> JobFree(s.pool.workers[w].job)
  }

  lemma {:induction false} KeptFree(all: seq<Chunk>)
    requires ChunksFree(all)
    ensures ChunksFree(Kept(all)) && ChunksFree(Taken(all))
  {
    if all == [] {
    } else {
      KeptFree(all[1..]);
    }
  }

  lemma {:induction false} GroupsFree(chunks: seq<Chunk>, flush: bool)
    requires ChunksFree(chunks)
    ensures JobsFree(GroupJobs(chunks, flush))
  {
    if |chunks| <= N_WAY_MERGE {
    } else {
      GroupsFree(chunks[N_WAY_MERGE..], flush);
    }
  }

  lemma SameLinesFree(a: Merging.Lines, bag: multiset<Line>)
    requires multiset(a) == bag && forall y :: y in bag ==> NEWLINE !in y.bytes
    ensures NewlineFree(a)
  {
    forall n | 0 <= n < |a| ensures NEWLINE !in a[n].bytes {
      assert a[n] in multiset(a);
    }
  }

  /** Merging newline-free chunks gives newline-free lines. */
  lemma MergeFree(chunks: seq<Chunk>, out: Merging.Lines)
    requires ChunksFree(chunks) && MergeRun(LinesOf(chunks), out)
    ensures NewlineFree(out)
  {
    MergeConserves(LinesOf(chunks), out);
    forall y | y in Union(LinesOf(chunks)) ensures NEWLINE !in y.bytes {
      UnionMember(LinesOf(chunks), y);
      var n :| 0 <= n < |LinesOf(chunks)| && y in LinesOf(chunks)[n];
      assert NewlineFree(chunks[n].lines);
    }
    SameLinesFree(out, Union(LinesOf(chunks)));
  }

  /** Running a job keeps its lines, and keeps them newline-free, also through a temporary file. */
  lemma ResultFree(job: Job, chunk: Chunk)
    requires JobFree(job) && JobResult(job, chunk)
    ensures NewlineFree(chunk.lines)
    ensures !job.Sort? ==> MergeRun(LinesOf(job.chunks), chunk.lines)
  {
    match job
    case Sort(lines) =>
      forall y | y in multiset(lines) ensures NEWLINE !in y.bytes {
        var n :| 0 <= n < |lines| && lines[n] == y;
      }
      SameLinesFree(chunk.lines, multiset(lines));
    case Merge(chunks) =>
      MergeFree(chunks, chunk.lines);
    case MergeFlush(chunks) =>
      var out :| MergeRun(LinesOf(chunks), out) && chunk.lines == SplitLines(Unlines(out));
      MergeFree(chunks, out);
      SplitUnlines(out);
  }

  lemma ResultOccurs(job: Job, chunk: Chunk, x: Line)
    requires JobFree(job) && JobResult(job, chunk)
    ensures Occurs(chunk.lines, x) == JobOccurs(job, x)
  {
    if !job.Sort? {
      ResultFree(job, chunk);
      MergeConserves(LinesOf(job.chunks), chunk.lines);
      UnionOccurs(job.chunks, x);
    }
  }

  /** A flushing and an in-memory merge of the same chunks can produce the same lines. */
  lemma FlushIsMerge(chunks: seq<Chunk>, lines: Merging.Lines)
    requires ChunksFree(chunks)
    ensures JobResult(MergeFlush(chunks), Chunk(lines, true, true))
       <==> JobResult(Merge(chunks), Chunk(lines, true, false))
  {
    if JobResult(MergeFlush(chunks), Chunk(lines, true, true)) {
      ResultFree(MergeFlush(chunks), Chunk(lines, true, true));
    }
    if JobResult(Merge(chunks), Chunk(lines, true, false)) {
      MergeFree(chunks, lines);
      SplitUnlines(lines);
    }
  }

  // ---------- the invariants ----------

  lemma TakeChunksFree(c: Config, s: State, t: State)
    requires Free(s) && TakeChunks(c, s, t)
    ensures Free(t)
  {
    KeptFree(s.chunks);
    GroupsFree(Taken(s.chunks), s.bytes > c.bufferSize);
  }

  lemma SendFree(c: Config, s: State, t: State)
    requires Free(s) && (SendSort(c, s, t) || SendMerge(c, s, t))
    ensures Free(t)
  {
  }

  lemma MainFree(c: Config, s: State, t: State)
    requires Control(c, s) && Free(s) && MainNext(c, s, t)
    ensures Free(t)
  {
    if TakeChunks(c, s, t) {
      TakeChunksFree(c, s, t);
    } else if SendSort(c, s, t) || SendMerge(c, s, t) {
      SendFree(c, s, t);
    } else if MergeAll(c, s, t) {
    } else {
      QuietStep(c, s, t);
    }
  }

  lemma WorkerFree(s: State, t: State, w: nat, early: bool)
    requires Free(s) && WorkerNext(s, t, w, early)
    ensures Free(t)
  {
    if chunk :| FinishJob(s, t, w, chunk) {
      ResultFree(s.pool.workers[w].job, chunk);
    }
  }

  lemma WorkerTotal(s: State, t: State, w: nat, early: bool, x: Line)
    requires Free(s) && WorkerNext(s, t, w, early)
    ensures Total(t, x) == Total(s, x)
  {
    if chunk :| FinishJob(s, t, w, chunk) {
      ResultOccurs(s.pool.workers[w].job, chunk, x);
      WorkersUpdate(s.pool.workers, w, P.Waiting, x);
      ChunksConcat(s.chunks, [chunk], x);
      ChunksOne(chunk, x);
    } else if P.CanReceive(s.pool, w) && t.pool == P.Receive(s.pool, w, early) {
      WorkersUpdate(s.pool.workers, w, P.Running(s.pool.queue[0]), x);
    } else {
      WorkersUpdate(s.pool.workers, w, P.Receiving, x);
      WorkersUpdate(s.pool.workers, w, P.Exited, x);
    }
  }

  lemma OutputTotal(c: Config, s: State, t: State, x: Line)
    requires Control(c, s) && Free(s) && MergeAll(c, s, t)
    ensures Total(t, x) == Total(s, x)
  {
    var out :| MergeRun(LinesOf(s.chunks), out) && t == s.(pc := Done, chunks := [], output := Unlines(out));
    MergeFree(s.chunks, out);
    SplitUnlines(out);
    MergeConserves(LinesOf(s.chunks), out);
    UnionOccurs(s.chunks, x);
  }

  lemma SendTotal(c: Config, s: State, t: State, x: Line)
    requires Control(c, s) && (SendSort(c, s, t) || SendMerge(c, s, t))
    ensures Total(t, x) == Total(s, x)
  {
    if SendSort(c, s, t) {
      JobsSnoc(s.pool.queue, Sort(s.lines), x);
    } else {
      JobsSnoc(s.pool.queue, s.pending[0], x);
    }
  }

  lemma ReadTotal(c: Config, s: State, t: State, x: Line)
    requires ReadLine(c, s, t)
    ensures Total(t, x) == Total(s, x)
  {
    OccursHead(s.unread, x);
    OccursSnoc(s.lines, s.unread[0], x);
  }

  lemma TakeChunksTotal(c: Config, s: State, t: State, x: Line)
    requires Control(c, s) && TakeChunks(c, s, t)
    ensures Total(t, x) == Total(s, x)
  {
    RegroupOccurs(s.chunks, x);
    GroupsOccur(Taken(s.chunks), s.bytes > c.bufferSize, x);
  }

  lemma QuietReading(c: Config, s: State, t: State)
    requires MainNext(c, s, t) && !SendSort(c, s, t) && !ReadLine(c, s, t)
    ensures t.unread == s.unread && t.lines == s.lines
  {
  }

  lemma SameTotal(s: State, t: State, x: Line)
    requires t.unread == s.unread && t.lines == s.lines && t.pending == s.pending && t.chunks == s.chunks
    requires t.pool.queue == s.pool.queue && t.pool.workers == s.pool.workers && t.output == s.output
    ensures Total(t, x) == Total(s, x)
  {
  }

  lemma MainTotal(c: Config, s: State, t: State, x: Line)
    requires Control(c, s) && Free(s) && MainNext(c, s, t)
    ensures Total(t, x) == Total(s, x)
  {
    if SendSort(c, s, t) || SendMerge(c, s, t) {
      SendTotal(c, s, t, x);
    } else if ReadLine(c, s, t) {
      ReadTotal(c, s, t, x);
    } else if TakeChunks(c, s, t) {
      TakeChunksTotal(c, s, t, x);
    } else if MergeAll(c, s, t) {
      OutputTotal(c, s, t, x);
    } else {
      QuietStep(c, s, t);
      QuietReading(c, s, t);
      SameTotal(s, t, x);
    }
  }

  ghost predicate SameLines(s: State, t: State) {
    forall x :: Total(t, x) == Total(s, x)
  }

  lemma NextKeeps(c: Config, s: State, t: State, liberal: bool)
    requires Control(c, s) && Free(s) && Next(c, s, t, liberal)
    ensures Free(t) && SameLines(s, t)
  {
    if MainNext(c, s, t) {
      MainFree(c, s, t);
      forall x ensures Total(t, x) == Total(s, x) {
        MainTotal(c, s, t, x);
      }
    } else {
      var w: nat, early: bool :| (early ==> liberal) && WorkerNext(s, t, w, early);
      WorkerFree(s, t, w, early);
      forall x ensures Total(t, x) == Total(s, x) {
        WorkerTotal(s, t, w, early, x);
      }
    }
  }

  lemma {:induction false} NothingInWorkers(workers: seq<P.Worker<Job>>, x: Line)
    requires forall w :: 0 <= w < |workers| ==> !workers[w].Running?
    ensures WorkersOccur(workers, x) == 0
  {
    if workers == [] {
    } else {
      NothingInWorkers(workers[1..], x);
    }
  }

  lemma InitTotal(c: Config, input: Merging.Lines, x: Line)
    ensures Total(Init(c, input), x) == Occurs(input, x)
  {
    NothingInWorkers(Init(c, input).pool.workers, x);
  }

  lemma {:induction false} InputFree(files: seq<seq<byte>>)
    ensures NewlineFree(InputLines(files))
  {
    if files == [] {
    } else {
      SplitNewlineFree(files[0]);
      InputFree(files[1..]);
    }
  }

  /** When the program has ended, nothing but the output holds any line. */
  lemma DoneTotal(c: Config, s: State, x: Line)
    requires Control(c, s) && s.pc == Done
    ensures Total(s, x) == Occurs(SplitLines(s.output), x)
  {
    P.JoinedMeansDone(s.pool);
    NothingInWorkers(s.pool.workers, x);
  }
}
