/**
 Particular runs of `sort` as written, of use for showing what can happen: jobs are run as soon as
 they are sent, unless one is held back.
 */
module SortSchedules {
  import opened Bytes
  import opened Merging
  import opened SortJobs
  import opened SortSystem
  import P = Pool
  import SortProgress

  // ---------- one job ----------

  ghost predicate Open(pool: P.Pool<Job>) {
    pool.open && |pool.workers| == pool.size >= 1
  }

  /** Nothing is queued and nothing runs. */
  ghost predicate Idle(pool: P.Pool<Job>) {
    && Open(pool) && pool.queue == [] && pool.lock.None?
    && forall w :: 0 <= w < |pool.workers| ==> pool.workers[w].Waiting?
  }

  /** One job is queued and nothing runs. */
  ghost predicate Sent(pool: P.Pool<Job>, job: Job) {
    && Open(pool) && pool.queue == [job] && pool.lock.None?
    && forall w :: 0 <= w < |pool.workers| ==> pool.workers[w].Waiting?
  }

  /** The first worker runs this job, and nothing else is going on. */
  ghost predicate Busy(pool: P.Pool<Job>, job: Job) {
    && Open(pool) && pool.queue == [] && pool.lock == Some(0) && pool.workers[0] == P.Running(job)
    && forall w :: 1 <= w < |pool.workers| ==> pool.workers[w].Waiting?
  }

  lemma ReachesTwo(c: Config, s: State, m: State, t: State)
    requires Next(c, s, m, false) && Next(c, m, t, false)
    ensures Reaches(c, s, t, false)
  {
    ReachesOne(c, m, t, false);
    ReachesStep(c, s, m, t, false);
  }

  lemma StartJob(c: Config, s: State, job: Job) returns (t: State)
    requires Sent(s.pool, job)
    ensures Reaches(c, s, t, false) && t == s.(pool := t.pool) && Busy(t.pool, job)
  {
    var m := s.(pool := P.Acquire(s.pool, 0));
    t := m.(pool := P.Receive(m.pool, 0, false));
    assert MoveWorker(s, m, 0, false) && WorkerNext(s, m, 0, false);
    assert MoveWorker(m, t, 0, false) && WorkerNext(m, t, 0, false);
    ReachesTwo(c, s, m, t);
  }

  lemma EndJob(c: Config, s: State, job: Job, chunk: Chunk) returns (t: State)
    requires Busy(s.pool, job) && JobResult(job, chunk)
    ensures Reaches(c, s, t, false) && t == s.(pool := t.pool, chunks := s.chunks + [chunk]) && Idle(t.pool)
  {
    t := s.(pool := P.Complete(s.pool, 0), chunks := s.chunks + [chunk]);
    assert FinishJob(s, t, 0, chunk);
    assert WorkerNext(s, t, 0, false);
    ReachesOne(c, s, t, false);
  }

  /** The job that was sent is run, with any result that it may have. */
  lemma RunSent(c: Config, s: State, job: Job, chunk: Chunk) returns (t: State)
    requires Sent(s.pool, job) && JobResult(job, chunk)
    ensures Reaches(c, s, t, false) && t == s.(pool := t.pool, chunks := s.chunks + [chunk]) && Idle(t.pool)
  {
    var m := StartJob(c, s, job);
    t := EndJob(c, m, job, chunk);
    ReachesTransitive(c, s, m, t, false);
  }

  // ---------- one batch ----------

  /** The batch being built is filled up. */
  lemma {:induction false} FillPath(c: Config, s: State) returns (t: State)
    requires s.pc == Fill && !s.exhausted && s.lines != []
    ensures Reaches(c, s, t, false) && t.lines != [] && |t.unread| <= |s.unread|
    ensures t == s.(pc := SubmitSort, unread := t.unread, lines := t.lines, bytes := t.bytes, exhausted := t.exhausted)
    decreases |s.unread|
  {
    if !RoomForLine(c, s) {
      t := s.(pc := SubmitSort);
      ReachesOne(c, s, t, false);
    } else if s.unread == [] {
      t := s.(pc := SubmitSort, exhausted := true);
      ReachesOne(c, s, t, false);
    } else {
      var m := s.(unread := s.unread[1..], lines := s.lines + [s.unread[0]], bytes := s.bytes + |s.unread[0].bytes|);
      assert ReadLine(c, s, m);
      t := FillPath(c, m);
      ReachesStep(c, s, m, t, false);
    }
  }

  /** From the head of the loop to a batch that is not empty. */
  lemma CollectPath(c: Config, s: State) returns (t: State)
    requires ValidConfig(c) && s.pc == Head && !s.exhausted && s.lines == [] && s.unread != [] && s.bytes < c.bufferSize
    ensures Reaches(c, s, t, false) && t.lines != [] && |t.unread| < |s.unread|
    ensures t == s.(pc := SubmitSort, unread := t.unread, lines := t.lines, bytes := t.bytes, exhausted := t.exhausted)
  {
    var m := s.(pc := Fill);
    var r := m.(unread := s.unread[1..], lines := [s.unread[0]], bytes := s.bytes + |s.unread[0].bytes|);
    assert EnterLoop(c, s, m) && ReadLine(c, m, r);
    t := FillPath(c, r);
    ReachesTwo(c, s, m, r);
    ReachesTransitive(c, s, r, t, false);
  }

  /** The batch is sent. */
  lemma SendPath(c: Config, s: State) returns (t: State)
    requires s.pc == SubmitSort && Open(s.pool) && s.pool.queue == []
    ensures Reaches(c, s, t, false) && t.pool == P.Submit(s.pool, Sort(s.lines))
    ensures t == s.(pc := Decide, pool := t.pool, sorts := s.sorts + [s.lines], batches := s.batches + 1, lines := [])
  {
    t := s.(pc := Decide, pool := P.Submit(s.pool, Sort(s.lines)), sorts := s.sorts + [s.lines],
            batches := s.batches + 1, lines := []);
    assert SendSort(c, s, t);
    ReachesOne(c, s, t, false);
  }

  /** With the bytes at the buffer size an empty batch is sent. */
  lemma SendEmptyPath(c: Config, s: State) returns (t: State)
    requires s.pc == Head && !s.exhausted && s.lines == [] && s.bytes == c.bufferSize
    requires Open(s.pool) && s.pool.queue == []
    ensures Reaches(c, s, t, false) && t.pool == P.Submit(s.pool, Sort([]))
    ensures t == s.(pc := Decide, pool := t.pool, sorts := s.sorts + [[]], batches := s.batches + 1)
  {
    var m, r := s.(pc := Fill), s.(pc := SubmitSort);
    assert EnterLoop(c, s, m) && BatchFull(c, m, r);
    t := SendPath(c, r);
    ReachesTwo(c, s, m, r);
    ReachesTransitive(c, s, r, t, false);
  }

  lemma SkipPath(c: Config, s: State) returns (t: State)
    requires s.pc == Decide && !MustMerge(c, s)
    ensures Reaches(c, s, t, false) && t == s.(pc := Head)
  {
    t := s.(pc := Head);
    assert SkipMerge(c, s, t);
    ReachesOne(c, s, t, false);
  }

  lemma TakePath(c: Config, s: State) returns (t: State)
    requires s.pc == Decide && MustMerge(c, s)
    ensures Reaches(c, s, t, false)
    ensures t == s.(pc := SubmitMerges, batches := 0, chunks := Kept(s.chunks),
                    pending := GroupJobs(Taken(s.chunks), s.bytes > c.bufferSize))
  {
    t := s.(pc := SubmitMerges, batches := 0, chunks := Kept(s.chunks),
            pending := GroupJobs(Taken(s.chunks), s.bytes > c.bufferSize));
    assert TakeChunks(c, s, t);
    ReachesOne(c, s, t, false);
  }

  /** A merge job is sent and run. */
  lemma MergeOnePath(c: Config, s: State, chunk: Chunk) returns (t: State)
    requires s.pc == SubmitMerges && s.pending != [] && Idle(s.pool) && JobResult(s.pending[0], chunk)
    ensures Reaches(c, s, t, false) && Idle(t.pool)
    ensures t == s.(pool := t.pool, pending := s.pending[1..], chunks := s.chunks + [chunk])
  {
    var m := s.(pool := P.Submit(s.pool, s.pending[0]), pending := s.pending[1..]);
    assert SendMerge(c, s, m);
    ReachesOne(c, s, m, false);
    t := RunSent(c, m, s.pending[0], chunk);
    ReachesTransitive(c, s, m, t, false);
  }

  /** All merge jobs are sent and run; none of their results can be merged again. */
  lemma {:induction false} MergeAllPath(c: Config, s: State) returns (t: State)
    requires s.pc == SubmitMerges && Idle(s.pool) && AllMerges(s.pending)
    ensures Reaches(c, s, t, false) && Idle(t.pool)
    ensures t == s.(pc := Head, bytes := 0, pool := t.pool, pending := [], chunks := t.chunks)
    ensures Taken(t.chunks) == Taken(s.chunks)
    decreases |s.pending|
  {
    if s.pending == [] {
      t := s.(pc := Head, bytes := 0);
      assert MergesSent(c, s, t);
      ReachesOne(c, s, t, false);
    } else {
      var chunk := SortProgress.JobTotal(s.pending[0]);
      var m := MergeOnePath(c, s, chunk);
      KeptSnoc(s.chunks, chunk);
      assert Taken(s.chunks) + [] == Taken(s.chunks);
      t := MergeAllPath(c, m);
      ReachesTransitive(c, s, m, t, false);
    }
  }

  // ---------- the stalled loop ----------

  const EMPTY_CHUNK: Chunk := Chunk([], false, false)

  function Empties(n: nat): (r: seq<Chunk>)
    ensures |r| == n && forall i :: 0 <= i < n ==> r[i] == EMPTY_CHUNK
  {
    seq(n, _ => EMPTY_CHUNK)
  }

  /** An empty batch is sent and sorted. */
  lemma StallOnce(c: Config, s: State) returns (t: State)
    requires s.pc == Head && !s.exhausted && s.lines == [] && s.bytes == c.bufferSize && Idle(s.pool)
    ensures Reaches(c, s, t, false) && Idle(t.pool)
    ensures t == s.(pc := Decide, pool := t.pool, sorts := s.sorts + [[]], batches := s.batches + 1,
                    chunks := s.chunks + [EMPTY_CHUNK])
  {
    var m := SendEmptyPath(c, s);
    t := RunSent(c, m, Sort([]), EMPTY_CHUNK);
    ReachesTransitive(c, s, m, t, false);
  }

  /** Empty batches are sent and sorted until there are six. */
  lemma {:induction false} StallPath(c: Config, s: State) returns (t: State)
    requires s.pc == Head && !s.exhausted && s.lines == [] && s.bytes == c.bufferSize && Idle(s.pool)
    requires 1 <= s.batches <= N_WAY_MERGE
    ensures Reaches(c, s, t, false) && Idle(t.pool)
    ensures t == s.(pc := Decide, pool := t.pool, sorts := t.sorts, batches := N_WAY_MERGE + 1, chunks := t.chunks)
    ensures Taken(t.chunks) == Taken(s.chunks) + Empties(N_WAY_MERGE + 1 - s.batches)
    decreases N_WAY_MERGE - s.batches
  {
    var m := StallOnce(c, s);
    KeptSnoc(s.chunks, EMPTY_CHUNK);
    if s.batches == N_WAY_MERGE {
      t := m;
      assert Empties(1) == [EMPTY_CHUNK];
    } else {
      var h := SkipPath(c, m);
      ReachesTransitive(c, s, m, h, false);
      t := StallPath(c, h);
      ReachesTransitive(c, s, h, t, false);
      MoreEmpties(Taken(s.chunks), N_WAY_MERGE - s.batches);
    }
  }

  lemma MoreEmpties(chunks: seq<Chunk>, n: nat)
    ensures chunks + [EMPTY_CHUNK] + Empties(n) == chunks + Empties(n + 1)
  {
  }

  lemma FirstFive(chunks: seq<Chunk>, n: nat)
    requires |chunks| + n == N_WAY_MERGE + 1 && n >= 1
    ensures (chunks + Empties(n))[..N_WAY_MERGE] == chunks + Empties(n - 1)
    ensures (chunks + Empties(n))[N_WAY_MERGE..] == [EMPTY_CHUNK]
  {
  }

  lemma GroupsOfSix(all: seq<Chunk>)
    requires |all| == N_WAY_MERGE + 1
    ensures GroupJobs(all, false) == [Merge(all[..N_WAY_MERGE]), Merge(all[N_WAY_MERGE..])]
  {
    var rest := all[N_WAY_MERGE..];
    assert |rest| == 1;
    assert GroupJobs(rest, false) == [Merge(rest)];
  }

  /** The two merge jobs after a stall: one of five chunks, and one of an empty chunk. */
  lemma SixGrouped(chunks: seq<Chunk>, n: nat)
    requires |chunks| + n == N_WAY_MERGE + 1 && n >= 1
    ensures GroupJobs(chunks + Empties(n), false) == [Merge(chunks + Empties(n - 1)), Merge([EMPTY_CHUNK])]
  {
    FirstFive(chunks, n);
    GroupsOfSix(chunks + Empties(n));
  }

  lemma MergeOfEmpty()
    ensures JobResult(Merge([EMPTY_CHUNK]), Chunk([], true, false))
  {
    var heap := LinesOf([EMPTY_CHUNK]);
    var out := MergeTotal(heap);
    MergeConserves(heap, out);
    UnionSingle([]);
    assert heap == [[]];
    assert |multiset(out)| == 0;
  }

  /** A stall from an idle state, up to the two merge jobs. */
  lemma StallAndTake(c: Config, s: State) returns (t: State)
    requires s.pc == Head && !s.exhausted && s.lines == [] && s.bytes == c.bufferSize && Idle(s.pool)
    requires 1 <= s.batches <= N_WAY_MERGE && |Taken(s.chunks)| == s.batches
    ensures Reaches(c, s, t, false) && t.pc == SubmitMerges && Idle(t.pool)
    ensures t.pending == [Merge(Taken(s.chunks) + Empties(N_WAY_MERGE - s.batches)), Merge([EMPTY_CHUNK])]
  {
    var d := StallPath(c, s);
    t := TakePath(c, d);
    SixGrouped(Taken(s.chunks), N_WAY_MERGE + 1 - s.batches);
    ReachesTransitive(c, s, d, t, false);
  }

  /** Two merge jobs are sent and run. */
  lemma MergeTwoPath(c: Config, s: State, first: Job, second: Job, x: Chunk, y: Chunk) returns (t: State)
    requires s.pc == SubmitMerges && Idle(s.pool) && s.pending == [first, second]
    requires JobResult(first, x) && JobResult(second, y)
    ensures Reaches(c, s, t, false) && t.pc == SubmitMerges && t.chunks == s.chunks + [x] + [y]
  {
    var m := MergeOnePath(c, s, x);
    t := MergeOnePath(c, m, y);
    ReachesTransitive(c, s, m, t, false);
  }

  /**
   A stall from an idle state: the batches sorted so far are merged together with all but one of the
   empty ones, with any result that this may have, and the last empty one becomes a merged chunk.
   */
  lemma StallAndMerge(c: Config, s: State, out: Merging.Lines) returns (t: State)
    requires s.pc == Head && !s.exhausted && s.lines == [] && s.bytes == c.bufferSize && Idle(s.pool)
    requires 1 <= s.batches <= N_WAY_MERGE && |Taken(s.chunks)| == s.batches
    requires MergeRun(LinesOf(Taken(s.chunks) + Empties(N_WAY_MERGE - s.batches)), out)
    ensures Reaches(c, s, t, false) && t.pc == SubmitMerges
    ensures Chunk(out, true, false) in t.chunks && Chunk([], true, false) in t.chunks
  {
    var x, y := Chunk(out, true, false), Chunk([], true, false);
    var k := StallAndTake(c, s);
    MergeOfEmpty();
    t := MergeTwoPath(c, k, k.pending[0], k.pending[1], x, y);
    ReachesTransitive(c, s, k, t, false);
    LastTwo(k.chunks, x, y);
  }

  lemma LastTwo(chunks: seq<Chunk>, x: Chunk, y: Chunk)
    ensures x in chunks + [x] + [y] && y in chunks + [x] + [y]
  {
    var all := chunks + [x] + [y];
    assert all[|chunks|] == x && all[|chunks| + 1] == y;
  }
}
