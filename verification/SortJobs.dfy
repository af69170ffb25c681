/** The jobs of `sort`: what a finished job adds to the shared vector, and how chunks are regrouped into jobs. */
module SortJobs {
  import opened Bytes
  import opened Lines
  import opened Sequences
  import opened Merging

  const N_WAY_MERGE: nat := 5

  /** The value of a `SortedChunk`: the lines it still holds, and where it comes from. */
  datatype Chunk = Chunk(lines: Merging.Lines, merged: bool, flushed: bool)

  datatype Job = Sort(lines: Merging.Lines) | Merge(chunks: seq<Chunk>) | MergeFlush(chunks: seq<Chunk>)

  function LinesOf(chunks: seq<Chunk>): (r: seq<Merging.Lines>)
    ensures |r| == |chunks|
    ensures forall n :: 0 <= n < |chunks| ==> r[n] == chunks[n].lines
  {
    if chunks == [] then [] else [chunks[0].lines] + LinesOf(chunks[1..])
  }

  /** The chunk that running this job may push. */
  ghost predicate JobResult(job: Job, chunk: Chunk) {
    match job
    case Sort(lines) => chunk == Chunk(SortLines(lines), false, false)
    case Merge(chunks) => MergeRun(LinesOf(chunks), chunk.lines) && chunk.merged && !chunk.flushed
    case MergeFlush(chunks) =>
      && chunk.merged && chunk.flushed
      && exists out :: MergeRun(LinesOf(chunks), out) && chunk.lines == SplitLines(Unlines(out))
  }

  // ---------- regrouping ----------

  predicate Mergeable(chunk: Chunk) {
    !chunk.flushed && !chunk.merged
  }

  /** The chunks that stay in the shared vector. */
  function Kept(all: seq<Chunk>): seq<Chunk> {
    if all == [] then [] else (if Mergeable(all[0]) then [] else [all[0]]) + Kept(all[1..])
  }

  /** The chunks that are handed to merge jobs. */
  function Taken(all: seq<Chunk>): seq<Chunk> {
    if all == [] then [] else (if Mergeable(all[0]) then [all[0]] else []) + Taken(all[1..])
  }

  function MergeJob(chunks: seq<Chunk>, flush: bool): Job {
    if flush then MergeFlush(chunks) else Merge(chunks)
  }

  /** Jobs of five chunks each, and one job for what remains. */
  function GroupJobs(chunks: seq<Chunk>, flush: bool): seq<Job> {
    if chunks == [] then []
    else if |chunks| <= N_WAY_MERGE then [MergeJob(chunks, flush)]
    else [MergeJob(chunks[..N_WAY_MERGE], flush)] + GroupJobs(chunks[N_WAY_MERGE..], flush)
  }

  /** Each chunk is kept or taken on its own, ... */
  lemma KeptOrTaken(chunk: Chunk)
    ensures Kept([chunk]) == if chunk.merged || chunk.flushed then [chunk] else []
    ensures Taken([chunk]) == if chunk.merged || chunk.flushed then [] else [chunk]
  {
    assert [chunk][1..] == [];
  }

  /** ... and the order stays. */
  lemma {:induction false} KeptConcat(a: seq<Chunk>, b: seq<Chunk>)
    ensures Kept(a + b) == Kept(a) + Kept(b)
    ensures Taken(a + b) == Taken(a) + Taken(b)
    decreases |a|
  {
    if a == [] {
      assert a + b == b;
    } else {
      KeptConcat(a[1..], b);
      assert a + b == [a[0]] + (a[1..] + b);
      KeptCons(a[0], a[1..] + b);
      KeptCons(a[0], a[1..]);
      assert a == [a[0]] + a[1..];
      Associative(Kept([a[0]]), Kept(a[1..]), Kept(b));
      Associative(Taken([a[0]]), Taken(a[1..]), Taken(b));
    }
  }

  lemma KeptCons(chunk: Chunk, rest: seq<Chunk>)
    ensures Kept([chunk] + rest) == Kept([chunk]) + Kept(rest)
    ensures Taken([chunk] + rest) == Taken([chunk]) + Taken(rest)
  {
    assert ([chunk] + rest)[1..] == rest && [chunk][1..] == [];
  }

  /**
   Chunk number 5 n is the first one of job n.  A job holds five chunks, the last one what is left, and
   the jobs flush exactly when told to.
   */
  lemma {:induction false} GroupsOfFive(chunks: seq<Chunk>, flush: bool, n: nat)
    requires 5 * n < |chunks|
    ensures |GroupJobs(chunks, flush)| == (|chunks| + 4) / 5
    ensures var part := chunks[5 * n..if 5 * n + 5 <= |chunks| then 5 * n + 5 else |chunks|];
            GroupJobs(chunks, flush)[n] == if flush then MergeFlush(part) else Merge(part)
  {
    if |chunks| <= 5 {
      assert chunks[0..|chunks|] == chunks;
    } else {
      GroupsOfFive(chunks[5..], flush, if n == 0 then 0 else n - 1);
      if n > 0 {
        LaterPart(chunks, n);
      }
    }
  }

  lemma LaterPart(chunks: seq<Chunk>, n: nat)
    requires 0 < 5 * n < |chunks|
    ensures var end := if 5 * n + 5 <= |chunks| then 5 * n + 5 else |chunks|;
            chunks[5..][5 * (n - 1)..end - 5] == chunks[5 * n..end]
  {
  }

  ghost predicate AllMerges(jobs: seq<Job>) {
    forall n :: 0 <= n < |jobs| ==> !jobs[n].Sort?
  }

  lemma {:induction false} GroupsAreMerges(chunks: seq<Chunk>, flush: bool)
    ensures AllMerges(GroupJobs(chunks, flush))
  {
    if |chunks| <= N_WAY_MERGE {
    } else {
      GroupsAreMerges(chunks[N_WAY_MERGE..], flush);
    }
  }

  lemma KeptSnoc(all: seq<Chunk>, chunk: Chunk)
    ensures Kept(all + [chunk]) == Kept(all) + if Mergeable(chunk) then [] else [chunk]
    ensures Taken(all + [chunk]) == Taken(all) + if Mergeable(chunk) then [chunk] else []
  {
    KeptConcat(all, [chunk]);
    KeptOrTaken(chunk);
  }

  /** A full group in front, or nothing, or a last partial group. */
  lemma {:induction false} GroupSnoc(full: seq<Chunk>, batch: seq<Chunk>, flush: bool)
    requires |full| % N_WAY_MERGE == 0 && 0 < |batch| <= N_WAY_MERGE
    ensures GroupJobs(full + batch, flush) == GroupJobs(full, flush) + [MergeJob(batch, flush)]
  {
    if full == [] {
      assert full + batch == batch;
    } else {
      assert |full| >= N_WAY_MERGE;
      var rest := full[N_WAY_MERGE..];
      assert (full + batch)[..N_WAY_MERGE] == full[..N_WAY_MERGE];
      assert (full + batch)[N_WAY_MERGE..] == rest + batch;
      if rest == [] {
        assert full[..N_WAY_MERGE] == full;
        assert rest + batch == batch;
      } else {
        GroupSnoc(rest, batch, flush);
      }
    }
  }

  /** The loop over the drained vector: merged chunks go back, the others are batched into jobs. */
  method Regroup(all: seq<Chunk>, flush: bool) returns (kept: seq<Chunk>, jobs: seq<Job>)
    ensures kept == Kept(all) && jobs == GroupJobs(Taken(all), flush)
  {
    kept, jobs := [], [];
    var batch := [];
    ghost var full := [];
    for n := 0 to |all|
      invariant kept == Kept(all[..n])
      invariant Taken(all[..n]) == full + batch && |batch| < N_WAY_MERGE
      invariant |full| % N_WAY_MERGE == 0 && jobs == GroupJobs(full, flush)
    {
      var chunk := all[n];
      assert all[..n + 1] == all[..n] + [chunk];
      KeptSnoc(all[..n], chunk);
      if !Mergeable(chunk) {
        kept := kept + [chunk];
      } else {
        batch := batch + [chunk];
        if |batch| == N_WAY_MERGE {
          GroupSnoc(full, batch, flush);
          jobs := jobs + [MergeJob(batch, flush)];
          full := full + batch;
          batch := [];
        }
      }
    }
    assert all[..|all|] == all;
    if batch != [] {
      GroupSnoc(full, batch, flush);
      jobs := jobs + [MergeJob(batch, flush)];
    } else {
      assert full + batch == full;
    }
  }
}
