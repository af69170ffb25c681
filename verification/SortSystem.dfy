/**
 The whole of `sort` as a step system: the driver loop on the main thread, the thread pool, the
 shared vector of chunks, and the final merge.  Main steps and worker steps interleave freely.
 */
module SortSystem {
  import opened Bytes
  import opened Lines
  import opened Sequences
  import opened Merging
  import opened SortJobs
  import P = Pool

  /** The `NonZero` options of the command: lines per batch, bytes per buffer, threads. */
  datatype Config = Config(batchSize: nat, bufferSize: nat, threads: nat)

  ghost predicate ValidConfig(c: Config) {
    c.batchSize >= 1 && c.bufferSize >= 1 && c.threads >= 1
  }

  datatype Pc = Head | Fill | SubmitSort | Decide | SubmitMerges | Finish | Join | Output | Done

  datatype State = State(
    pc: Pc,
    unread: Merging.Lines,
    lines: Merging.Lines,
    exhausted: bool,
    bytes: nat,
    batches: nat,
    pending: seq<Job>,
    chunks: seq<Chunk>,
    pool: P.Pool<Job>,
    output: seq<byte>,
    sorts: seq<Merging.Lines>)  // history: the batches submitted so far

  /** The lines of all inputs, in order. */
  function InputLines(files: seq<seq<byte>>): Merging.Lines {
    if files == [] then [] else SplitLines(files[0]) + InputLines(files[1..])
  }

  /** Every input is read, in order. */
  lemma {:induction false} InputLinesOf(a: seq<seq<byte>>, file: seq<byte>, b: seq<seq<byte>>)
    ensures InputLines([file]) == SplitLines(file)
    ensures InputLines(a + b) == InputLines(a) + InputLines(b)
    decreases |a|
  {
    assert [file][1..] == [];
    if a == [] {
      assert a + b == b;
    } else {
      assert (a + b)[1..] == a[1..] + b;
      InputLinesOf(a[1..], file, b);
      Associative(SplitLines(a[0]), InputLines(a[1..]), InputLines(b));
    }
  }

  function Init(c: Config, input: Merging.Lines): State {
    State(Head, input, [], false, 0, 0, [], [], P.New(c.threads), [], [])
  }

  // ---------- steps of the main thread ----------

  predicate RoomForLine(c: Config, s: State) {
    |s.lines| < c.batchSize && s.bytes < c.bufferSize
  }

  ghost predicate EnterLoop(c: Config, s: State, t: State) {
    s.pc == Head && t == s.(pc := if s.exhausted then Finish else Fill)
  }

  ghost predicate ReadLine(c: Config, s: State, t: State) {
    && s.pc == Fill && RoomForLine(c, s) && s.unread != []
    && t == s.(unread := s.unread[1..],
               lines := s.lines + [s.unread[0]],
               bytes := s.bytes + |s.unread[0].bytes|)
  }

  ghost predicate ReadEnd(c: Config, s: State, t: State) {
    && s.pc == Fill && RoomForLine(c, s) && s.unread == []
    && t == s.(pc := SubmitSort, exhausted := true)
  }

  ghost predicate BatchFull(c: Config, s: State, t: State) {
    && s.pc == Fill && !RoomForLine(c, s)
    && t == s.(pc := SubmitSort)
  }

  ghost predicate SendSort(c: Config, s: State, t: State) {
    && s.pc == SubmitSort && P.CanSubmit(s.pool)
    && t == s.(pc := Decide,
               pool := P.Submit(s.pool, Sort(s.lines)),
               sorts := s.sorts + [s.lines],
               batches := s.batches + 1,
               lines := [])
  }

  predicate MustMerge(c: Config, s: State) {
    !s.exhausted && (s.bytes > c.bufferSize || s.batches > N_WAY_MERGE)
  }

  ghost predicate SkipMerge(c: Config, s: State, t: State) {
    s.pc == Decide && !MustMerge(c, s) && t == s.(pc := Head)
  }

  /** Under the lock of the shared vector: take the unmerged chunks out and group them. */
  ghost predicate TakeChunks(c: Config, s: State, t: State) {
    && s.pc == Decide && MustMerge(c, s)
    && t == s.(pc := SubmitMerges,
               batches := 0,
               chunks := Kept(s.chunks),
               pending := GroupJobs(Taken(s.chunks), s.bytes > c.bufferSize))
  }

  ghost predicate SendMerge(c: Config, s: State, t: State) {
    && s.pc == SubmitMerges && s.pending != [] && P.CanSubmit(s.pool)
    && t == s.(pool := P.Submit(s.pool, s.pending[0]), pending := s.pending[1..])
  }

  ghost predicate MergesSent(c: Config, s: State, t: State) {
    s.pc == SubmitMerges && s.pending == [] && t == s.(pc := Head, bytes := 0)
  }

  ghost predicate DropSender(c: Config, s: State, t: State) {
    s.pc == Finish && t == s.(pc := Join, pool := P.Close(s.pool))
  }

  ghost predicate JoinWorkers(c: Config, s: State, t: State) {
    s.pc == Join && P.Joined(s.pool) && t == s.(pc := Output)
  }

  ghost predicate MergeAll(c: Config, s: State, t: State) {
    && s.pc == Output
    && exists out :: MergeRun(LinesOf(s.chunks), out)
                  && t == s.(pc := Done, chunks := [], output := Unlines(out))
  }

  ghost predicate MainNext(c: Config, s: State, t: State) {
    || EnterLoop(c, s, t) || ReadLine(c, s, t) || ReadEnd(c, s, t) || BatchFull(c, s, t)
    || SendSort(c, s, t) || SkipMerge(c, s, t) || TakeChunks(c, s, t) || SendMerge(c, s, t)
    || MergesSent(c, s, t) || DropSender(c, s, t) || JoinWorkers(c, s, t) || MergeAll(c, s, t)
  }

  // ---------- steps of the workers ----------

  /** A worker finishes its job and pushes the result. */
  ghost predicate FinishJob(s: State, t: State, w: nat, chunk: Chunk) {
    && P.CanComplete(s.pool, w)
    && JobResult(s.pool.workers[w].job, chunk)
    && t == s.(pool := P.Complete(s.pool, w), chunks := s.chunks + [chunk])
  }

  /** A worker takes the lock, takes a job, or leaves. */
  ghost predicate MoveWorker(s: State, t: State, w: nat, early: bool) {
    && t == s.(pool := t.pool)
    && (|| (P.CanAcquire(s.pool, w) && t.pool == P.Acquire(s.pool, w))
        || (P.CanReceive(s.pool, w) && t.pool == P.Receive(s.pool, w, early))
        || (P.CanExit(s.pool, w) && t.pool == P.Exit(s.pool, w)))
  }

  ghost predicate WorkerNext(s: State, t: State, w: nat, early: bool) {
    MoveWorker(s, t, w, early) || exists chunk :: FinishJob(s, t, w, chunk)
  }

  /**
   One step of the system.  With `liberal` the lock on the channel may be released before the job
   runs; without it the system is the one that is written.
   */
  ghost predicate Next(c: Config, s: State, t: State, liberal: bool) {
    MainNext(c, s, t) || exists w: nat, early: bool :: (early ==> liberal) && WorkerNext(s, t, w, early)
  }

  /** t can be reached from s. */
  ghost predicate Reaches(c: Config, s: State, t: State, liberal: bool) {
    exists n: nat :: ReachesIn(c, s, t, liberal, n)
  }

  ghost predicate ReachesIn(c: Config, s: State, t: State, liberal: bool, n: nat)
    decreases n
  {
    if n == 0 then s == t
    else exists m :: Next(c, s, m, liberal) && ReachesIn(c, m, t, liberal, n - 1)
  }

  lemma ReachesStep(c: Config, s: State, m: State, t: State, liberal: bool)
    requires Next(c, s, m, liberal) && Reaches(c, m, t, liberal)
    ensures Reaches(c, s, t, liberal)
  {
    var n: nat :| ReachesIn(c, m, t, liberal, n);
    assert ReachesIn(c, s, t, liberal, n + 1);
  }

  lemma {:induction false} ReachesThen(c: Config, s: State, m: State, t: State, liberal: bool, n: nat)
    requires ReachesIn(c, s, m, liberal, n) && Reaches(c, m, t, liberal)
    ensures Reaches(c, s, t, liberal)
    decreases n
  {
    if n == 0 {
    } else {
      var k :| Next(c, s, k, liberal) && ReachesIn(c, k, m, liberal, n - 1);
      ReachesThen(c, k, m, t, liberal, n - 1);
      ReachesStep(c, s, k, t, liberal);
    }
  }

  lemma ReachesTransitive(c: Config, s: State, m: State, t: State, liberal: bool)
    requires Reaches(c, s, m, liberal) && Reaches(c, m, t, liberal)
    ensures Reaches(c, s, t, liberal)
  {
    var n: nat :| ReachesIn(c, s, m, liberal, n);
    ReachesThen(c, s, m, t, liberal, n);
  }

  lemma ReachesOne(c: Config, s: State, t: State, liberal: bool)
    requires s == t || Next(c, s, t, liberal)
    ensures Reaches(c, s, t, liberal)
  {
    assert ReachesIn(c, t, t, liberal, 0);
    if s != t {
      ReachesStep(c, s, t, t, liberal);
    }
  }

  /** The steps of the system keep inv. */
  ghost predicate Inductive(c: Config, inv: State -> bool, liberal: bool) {
    forall s, t :: inv(s) && Next(c, s, t, liberal) ==> inv(t)
  }

  /** What every step keeps holds in every state that can be reached. */
  lemma {:induction false} InductiveHolds(c: Config, inv: State -> bool, s: State, t: State, liberal: bool, n: nat)
    requires Inductive(c, inv, liberal) && inv(s) && ReachesIn(c, s, t, liberal, n)
    ensures inv(t)
    decreases n
  {
    if n == 0 {
    } else {
      var m :| Next(c, s, m, liberal) && ReachesIn(c, m, t, liberal, n - 1);
      InductiveHolds(c, inv, m, t, liberal, n - 1);
    }
  }

  /** The written system is one of the behaviours of the liberal one. */
  lemma {:induction false} WrittenIsLiberal(c: Config, s: State, t: State, n: nat)
    requires ReachesIn(c, s, t, false, n)
    ensures ReachesIn(c, s, t, true, n)
    decreases n
  {
    if n == 0 {
    } else {
      var m :| Next(c, s, m, false) && ReachesIn(c, m, t, false, n - 1);
      WrittenIsLiberal(c, m, t, n - 1);
      assert Next(c, s, m, true);
    }
  }

  lemma ReachesLiberally(c: Config, s: State, t: State, liberal: bool)
    requires Reaches(c, s, t, false)
    ensures Reaches(c, s, t, liberal)
  {
    var n: nat :| ReachesIn(c, s, t, false, n);
    WrittenIsLiberal(c, s, t, n);
  }

  // ---------- control invariant ----------

  /** The driver variables and the pool agree with the program counter. */
  ghost predicate Control(c: Config, s: State) {
    && P.Inv(s.pool) && s.pool.size == c.threads
    && (s.pool.open <==> s.pc !in {Join, Output, Done})
    && (s.pc in {Output, Done} ==> P.Joined(s.pool))
    && (s.pc in {Finish, Join, Output, Done} ==> s.exhausted)
    && (s.pc in {Fill, SubmitMerges} ==> !s.exhausted)
    && (s.exhausted ==> s.unread == [])
    && |s.lines| <= c.batchSize
    && (s.pc !in {Fill, SubmitSort} ==> s.lines == [])
    && (s.pc != SubmitMerges ==> s.pending == [])
    && (s.pc != Done ==> s.output == [])
    && (s.pc == Done ==> s.chunks == [])
  }

  /** At every head of the batching loop: `bytes` is within the buffer and there are at most five batches. */
  ghost predicate Counters(c: Config, s: State) {
    && (s.pc == Head && !s.exhausted ==> s.bytes <= c.bufferSize && s.batches <= N_WAY_MERGE)
    && (s.pc == Fill ==> s.batches <= N_WAY_MERGE && (s.lines == [] ==> s.bytes <= c.bufferSize))
    && (s.pc == SubmitSort && !s.exhausted ==>
          s.batches <= N_WAY_MERGE && (s.lines == [] ==> s.bytes == c.bufferSize))
    && (s.pc == Decide && !s.exhausted ==> 1 <= s.batches <= N_WAY_MERGE + 1)
    && (s.pc == SubmitMerges ==> s.batches == 0)
  }

  lemma InitControl(c: Config, input: Merging.Lines)
    requires ValidConfig(c)
    ensures Control(c, Init(c, input)) && Counters(c, Init(c, input))
  {
    P.NewInv<Job>(c.threads);
  }

  /** The final merge empties the vector and writes the output. */
  lemma OutputStep(c: Config, s: State, t: State)
    requires MergeAll(c, s, t)
    ensures s.pc == Output && t == s.(pc := Done, chunks := [], output := t.output)
  {
  }

  /** Only regrouping and the final merge change the vector on the main thread. */
  lemma MainKeepsChunks(c: Config, s: State, t: State)
    requires MainNext(c, s, t) && !TakeChunks(c, s, t) && !MergeAll(c, s, t)
    ensures t.chunks == s.chunks && t.pool.workers == s.pool.workers && s.pool.queue <= t.pool.queue
  {
    if SendSort(c, s, t) || SendMerge(c, s, t) {
    } else {
      QuietStep(c, s, t);
    }
  }

  /** Workers only push chunks. */
  lemma WorkersPush(s: State, t: State, w: nat, early: bool)
    requires WorkerNext(s, t, w, early)
    ensures s.chunks <= t.chunks
  {
  }

  /** The other steps of the main thread leave jobs and chunks where they are. */
  lemma QuietStep(c: Config, s: State, t: State)
    requires MainNext(c, s, t)
    requires !SendSort(c, s, t) && !TakeChunks(c, s, t) && !SendMerge(c, s, t) && !MergeAll(c, s, t)
    ensures s.pc !in {SubmitSort, Output, Done} && t.pc != Done
    ensures s.pc == Decide ==> !MustMerge(c, s)
    ensures s.pc == SubmitMerges ==> s.pending == []
    ensures t.pending == s.pending && t.chunks == s.chunks && t.sorts == s.sorts && t.output == s.output
    ensures t.pool == s.pool || t.pool == P.Close(s.pool)
  {
  }

  lemma MainControl(c: Config, s: State, t: State)
    requires ValidConfig(c) && Control(c, s) && MainNext(c, s, t)
    ensures Control(c, t)
  {
    if SendSort(c, s, t) {
      P.SubmitInv(s.pool, Sort(s.lines));
    } else if SendMerge(c, s, t) {
      P.SubmitInv(s.pool, s.pending[0]);
    } else if DropSender(c, s, t) {
      P.CloseInv(s.pool);
    }
  }

  lemma WorkerPool(s: State, t: State, w: nat, early: bool)
    requires WorkerNext(s, t, w, early)
    ensures P.WorkerNext(s.pool, t.pool, w, early)
    ensures t == s.(pool := t.pool, chunks := t.chunks)
  {
  }

  lemma WorkerControl(c: Config, s: State, t: State, w: nat, early: bool)
    requires Control(c, s) && WorkerNext(s, t, w, early)
    ensures Control(c, t)
  {
    WorkerPool(s, t, w, early);
    P.WorkerNextInv(s.pool, t.pool, w, early);
    var worker := s.pool.workers[w];
    assert s.pc == Output || s.pc == Done ==> worker.Exited?;
  }

  lemma ReadCounters(c: Config, s: State, t: State)
    requires ValidConfig(c) && Control(c, s) && Counters(c, s) && MainNext(c, s, t) && s.pc in {Head, Fill}
    ensures Counters(c, t)
  {
  }

  lemma SendCounters(c: Config, s: State, t: State)
    requires ValidConfig(c) && Control(c, s) && Counters(c, s) && MainNext(c, s, t) && s.pc in {SubmitSort, Decide}
    ensures Counters(c, t)
  {
  }

  lemma OtherCounters(c: Config, s: State, t: State)
    requires Control(c, s) && Counters(c, s) && MainNext(c, s, t) && s.pc !in {Head, Fill, SubmitSort, Decide}
    ensures Counters(c, t)
  {
  }

  lemma MainCounters(c: Config, s: State, t: State)
    requires ValidConfig(c) && Control(c, s) && Counters(c, s) && MainNext(c, s, t)
    ensures Counters(c, t)
  {
    if s.pc in {Head, Fill} {
      ReadCounters(c, s, t);
    } else if s.pc in {SubmitSort, Decide} {
      SendCounters(c, s, t);
    } else {
      OtherCounters(c, s, t);
    }
  }

  lemma NextControl(c: Config, s: State, t: State, liberal: bool)
    requires ValidConfig(c) && Control(c, s) && Counters(c, s) && Next(c, s, t, liberal)
    ensures Control(c, t) && Counters(c, t)
  {
    if MainNext(c, s, t) {
      MainControl(c, s, t);
      MainCounters(c, s, t);
    } else {
      var w: nat, early: bool :| (early ==> liberal) && WorkerNext(s, t, w, early);
      WorkerControl(c, s, t, w, early);
      WorkerPool(s, t, w, early);
    }
  }
}
