/** `sort` is never stuck and always ends, although an iteration of its batching loop may read no line. */
module SortProgress {
  import opened Bytes
  import opened Lines
  import opened Merging
  import opened SortJobs
  import opened SortSystem
  import P = Pool

  // ---------- the measure ----------

  /** The measure, most significant part first. */
  datatype Measure = Measure(open: nat, unread: nat, stall: nat, pc: nat, pending: nat, workers: nat)

  ghost predicate Smaller(a: Measure, b: Measure) {
    || a.open < b.open
    || (a.open == b.open
        && (|| a.unread < b.unread
            || (a.unread == b.unread
                && (|| a.stall < b.stall
                    || (a.stall == b.stall
                        && (|| a.pc < b.pc
                            || (a.pc == b.pc
                                && (|| a.pending < b.pending
                                    || (a.pending == b.pending && a.workers < b.workers)))))))))
  }

  /** While `bytes` stands at the buffer size every iteration adds an empty batch, at most six of them. */
  function StallLeft(c: Config, s: State): nat {
    if s.bytes == c.bufferSize && s.batches <= 6 then 2 * (7 - s.batches) else 0
  }

  function Stall(c: Config, s: State): nat {
    if s.exhausted then 0 else
      match s.pc
      case Fill => if s.lines == [] then StallLeft(c, s) else 20
      case SubmitSort => if s.lines == [] && StallLeft(c, s) > 0 then StallLeft(c, s) - 1 else 20
      case SubmitMerges => 0
      case _ => StallLeft(c, s)
  }

  function PcRank(s: State): nat {
    match s.pc
    case Done => 0
    case Output => 1
    case Join => 2
    case Finish => 3
    case Head => 5
    case SubmitMerges => 6
    case Decide => 7
    case SubmitSort => 8
    case Fill => if s.lines == [] then 4 else 9
  }

  function Left(c: Config, s: State): Measure {
    Measure(if s.exhausted then 0 else 1, |s.unread|, Stall(c, s), PcRank(s), |s.pending|, P.Rank(s.pool))
  }

  lemma BatchShrinks(c: Config, s: State, t: State)
    requires ValidConfig(c) && Control(c, s) && Counters(c, s) && MainNext(c, s, t)
    requires s.pc in {Fill, SubmitSort}
    ensures Smaller(Left(c, t), Left(c, s))
  {
  }

  lemma LoopShrinks(c: Config, s: State, t: State)
    requires ValidConfig(c) && Control(c, s) && Counters(c, s) && MainNext(c, s, t)
    requires s.pc in {Head, Decide, SubmitMerges}
    ensures Smaller(Left(c, t), Left(c, s))
  {
  }

  lemma FinishShrinks(c: Config, s: State, t: State)
    requires s.pc == Finish && s.exhausted && MainNext(c, s, t)
    ensures Smaller(Left(c, t), Left(c, s))
  {
    assert t == s.(pc := Join, pool := t.pool);
  }

  lemma JoinShrinks(c: Config, s: State, t: State)
    requires s.pc == Join && s.exhausted && MainNext(c, s, t)
    ensures Smaller(Left(c, t), Left(c, s))
  {
    assert t == s.(pc := Output);
  }

  lemma OutputShrinks(c: Config, s: State, t: State)
    requires s.exhausted && MergeAll(c, s, t)
    ensures Smaller(Left(c, t), Left(c, s))
  {
    OutputStep(c, s, t);
  }

  lemma MainShrinks(c: Config, s: State, t: State)
    requires ValidConfig(c) && Control(c, s) && Counters(c, s) && MainNext(c, s, t)
    ensures Smaller(Left(c, t), Left(c, s))
  {
    if s.pc in {Fill, SubmitSort} {
      BatchShrinks(c, s, t);
    } else if s.pc in {Head, Decide, SubmitMerges} {
      LoopShrinks(c, s, t);
    } else if s.pc == Finish {
      FinishShrinks(c, s, t);
    } else if s.pc == Join {
      JoinShrinks(c, s, t);
    } else {
      OutputShrinks(c, s, t);
    }
  }

  /** Every step of every interleaving makes the measure smaller. */
  lemma NextShrinks(c: Config, s: State, t: State, liberal: bool)
    requires ValidConfig(c) && Control(c, s) && Counters(c, s) && Next(c, s, t, liberal)
    ensures Smaller(Left(c, t), Left(c, s))
  {
    if MainNext(c, s, t) {
      MainShrinks(c, s, t);
    } else {
      var w: nat, early: bool :| (early ==> liberal) && WorkerNext(s, t, w, early);
      WorkerPool(s, t, w, early);
      P.WorkerStepsShrink(s.pool, w, early);
    }
  }

  lemma {:induction false} Descend(c: Config, run: nat -> State, liberal: bool, n: nat)
    requires ValidConfig(c) && Control(c, run(n)) && Counters(c, run(n))
    ensures exists m: nat :: !Next(c, run(m), run(m + 1), liberal)
    decreases Left(c, run(n)).open, Left(c, run(n)).unread, Left(c, run(n)).stall,
              Left(c, run(n)).pc, Left(c, run(n)).pending, Left(c, run(n)).workers
  {
    if Next(c, run(n), run(n + 1), liberal) {
      NextControl(c, run(n), run(n + 1), liberal);
      NextShrinks(c, run(n), run(n + 1), liberal);
      Descend(c, run, liberal, n + 1);
    }
  }

  /** There is no endless run, for any input, any batch and buffer sizes, and any number of threads. */
  lemma NoEndlessRun(c: Config, input: Merging.Lines, run: nat -> State, liberal: bool)
    requires ValidConfig(c) && run(0) == Init(c, input)
    ensures exists m: nat :: !Next(c, run(m), run(m + 1), liberal)
  {
    InitControl(c, input);
    Descend(c, run, liberal, 0);
  }

  // ---------- progress ----------

  lemma JobTotal(job: Job) returns (chunk: Chunk)
    ensures JobResult(job, chunk)
  {
    match job
    case Sort(lines) =>
      chunk := Chunk(SortLines(lines), false, false);
    case Merge(chunks) =>
      var out := MergeTotal(LinesOf(chunks));
      chunk := Chunk(out, true, false);
    case MergeFlush(chunks) =>
      var out := MergeTotal(LinesOf(chunks));
      chunk := Chunk(SplitLines(Unlines(out)), true, true);
  }

  /** When the pool can step, so can the system, also without releasing the lock early. */
  lemma WorkerCanStep(c: Config, s: State, w: nat) returns (t: State)
    requires P.CanStep(s.pool, w)
    ensures Next(c, s, t, false) && t.pc == s.pc
  {
    if P.CanComplete(s.pool, w) {
      var chunk := JobTotal(s.pool.workers[w].job);
      t := s.(pool := P.Complete(s.pool, w), chunks := s.chunks + [chunk]);
      assert FinishJob(s, t, w, chunk);
    } else {
      t := s.(pool := if P.CanAcquire(s.pool, w) then P.Acquire(s.pool, w)
                      else if P.CanReceive(s.pool, w) then P.Receive(s.pool, w, false)
                      else P.Exit(s.pool, w));
      assert MoveWorker(s, t, w, false);
    }
    assert WorkerNext(s, t, w, false);
  }

  /** No reachable state is stuck before the end, in the written system as in the liberal one. */
  lemma Progress(c: Config, s: State) returns (t: State)
    requires ValidConfig(c) && Control(c, s) && s.pc != Done
    ensures Next(c, s, t, false) && (s.pc != Output ==> t.pc != Done)
  {
    var sending := s.pc == SubmitSort || (s.pc == SubmitMerges && s.pending != []);
    if (sending && !P.CanSubmit(s.pool)) || (s.pc == Join && !P.Joined(s.pool)) {
      var w := P.WorkersProgress(s.pool);
      t := WorkerCanStep(c, s, w);
    } else {
      t := MainCanStep(c, s);
    }
  }

  lemma MainCanStep(c: Config, s: State) returns (t: State)
    requires s.pc != Done
    requires s.pc == SubmitSort || (s.pc == SubmitMerges && s.pending != []) ==> P.CanSubmit(s.pool)
    requires s.pc == Join ==> P.Joined(s.pool)
    ensures MainNext(c, s, t) && (s.pc != Output ==> t.pc != Done)
  {
    match s.pc
    case Head => t := s.(pc := if s.exhausted then Finish else Fill);
    case Fill =>
      if !RoomForLine(c, s) {
        t := s.(pc := SubmitSort);
      } else if s.unread == [] {
        t := s.(pc := SubmitSort, exhausted := true);
      } else {
        t := s.(unread := s.unread[1..], lines := s.lines + [s.unread[0]], bytes := s.bytes + |s.unread[0].bytes|);
      }
    case SubmitSort =>
      t := s.(pc := Decide, pool := P.Submit(s.pool, Sort(s.lines)), sorts := s.sorts + [s.lines],
              batches := s.batches + 1, lines := []);
    case Decide =>
      if MustMerge(c, s) {
        t := s.(pc := SubmitMerges, batches := 0, chunks := Kept(s.chunks),
                pending := GroupJobs(Taken(s.chunks), s.bytes > c.bufferSize));
      } else {
        t := s.(pc := Head);
      }
    case SubmitMerges =>
      if s.pending == [] {
        t := s.(pc := Head, bytes := 0);
      } else {
        t := s.(pool := P.Submit(s.pool, s.pending[0]), pending := s.pending[1..]);
      }
    case Finish => t := s.(pc := Join, pool := P.Close(s.pool));
    case Join => t := s.(pc := Output);
    case Output =>
      var out := MergeTotal(LinesOf(s.chunks));
      t := s.(pc := Done, chunks := [], output := Unlines(out));
  }

  /** From every reachable state that is not the end, the written system can reach the final merge. */
  lemma {:induction false} ReachesOutput(c: Config, s: State) returns (t: State)
    requires ValidConfig(c) && Control(c, s) && Counters(c, s) && s.pc != Done
    ensures Reaches(c, s, t, false) && t.pc == Output
    decreases Left(c, s).open, Left(c, s).unread, Left(c, s).stall,
              Left(c, s).pc, Left(c, s).pending, Left(c, s).workers
  {
    if s.pc == Output {
      t := s;
      assert ReachesIn(c, s, t, false, 0);
    } else {
      var m := Progress(c, s);
      NextControl(c, s, m, false);
      NextShrinks(c, s, m, false);
      t := ReachesOutput(c, m);
      ReachesStep(c, s, m, t, false);
    }
  }
}
