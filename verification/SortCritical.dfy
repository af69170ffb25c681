/** States of `sort` from which the output need not be sorted, whatever happens next. */
module SortCritical {
  import opened Bytes
  import opened Lines
  import opened Merging
  import opened SortJobs
  import opened SortSystem
  import P = Pool
  import C = SortConservation
  import opened SortShapes
  import opened SortEmptyBatch
  import opened SortCorrectness
  import SortProgress

  /** Some lines, but not all. */
  ghost predicate Part(input: Merging.Lines, lines: Merging.Lines) {
    0 < |lines| < |input|
  }

  /** A merged chunk without lines, and one with a part of them. */
  ghost predicate DoomedPair(input: Merging.Lines, e: Chunk, m: Chunk) {
    e.merged && m.merged && e.lines == [] && Part(input, m.lines)
  }

  /** The vector holds a merged chunk without lines beside a merged chunk with a part of the lines. */
  ghost predicate Doomed(input: Merging.Lines, s: State) {
    exists e: Chunk, m: Chunk :: e in s.chunks && m in s.chunks && DoomedPair(input, e, m)
  }

  /** The vector holds a merged chunk that is not sorted. */
  ghost predicate Bad(s: State) {
    exists m: Chunk :: m in s.chunks && m.merged && !Sorted(m.lines)
  }

  ghost predicate LooseJob(input: Merging.Lines, job: Job) {
    job.Sort? && Part(input, job.lines)
  }

  /** A part of the lines is queued as a batch, is being sorted, or is in the vector. */
  ghost predicate Loose(input: Merging.Lines, s: State) {
    || (exists n :: 0 <= n < |s.pool.queue| && LooseJob(input, s.pool.queue[n]))
    || (exists w :: 0 <= w < |s.pool.workers| && s.pool.workers[w].Running? && LooseJob(input, s.pool.workers[w].job))
    || (exists n :: 0 <= n < |s.chunks| && Part(input, s.chunks[n].lines))
  }

  /** All lines are sent, and the vector will not be regrouped any more. */
  ghost predicate NoMoreTakes(c: Config, s: State) {
    s.exhausted
    || (&& s.unread == [] && s.lines == []
        && (s.pc == SubmitMerges || (s.pc in {Head, Fill} && s.bytes < c.bufferSize)))
  }

  /** Once the input has ended the last batch is empty. */
  ghost predicate LastIsEmpty(s: State) {
    s.exhausted ==>
      if s.pc == SubmitSort then s.lines == [] else s.sorts != [] && s.sorts[|s.sorts| - 1] == []
  }

  ghost predicate Tail(c: Config, input: Merging.Lines, s: State) {
    NoMoreTakes(c, s) && Loose(input, s) && LastIsEmpty(s)
  }

  ghost predicate Critical(c: Config, input: Merging.Lines, s: State) {
    s.pc != Done && (Doomed(input, s) || Bad(s) || Tail(c, input, s))
  }

  lemma {:induction false} KeptMember(all: seq<Chunk>, chunk: Chunk)
    requires chunk in all && chunk.merged
    ensures chunk in Kept(all)
  {
    if all[0] != chunk {
      KeptMember(all[1..], chunk);
    }
  }

  /** A merged chunk stays in the vector until the final merge. */
  lemma MergedStays(c: Config, s: State, t: State, liberal: bool, chunk: Chunk)
    requires Next(c, s, t, liberal) && t.pc != Done && chunk in s.chunks && chunk.merged
    ensures chunk in t.chunks
  {
    if TakeChunks(c, s, t) {
      KeptMember(s.chunks, chunk);
    } else if MainNext(c, s, t) {
      MainKeepsChunks(c, s, t);
    } else {
      var w: nat, early: bool :| (early ==> liberal) && WorkerNext(s, t, w, early);
      WorkersPush(s, t, w, early);
      StillIn(s.chunks, t.chunks, chunk);
    }
  }

  lemma StillIn(chunks: seq<Chunk>, more: seq<Chunk>, chunk: Chunk)
    requires chunks <= more && chunk in chunks
    ensures chunk in more
  {
    var n :| 0 <= n < |chunks| && chunks[n] == chunk;
    assert more[n] == chunk;
  }

  lemma MainTail(c: Config, input: Merging.Lines, s: State, t: State)
    requires ValidConfig(c) && Control(c, s) && Tail(c, input, s) && MainNext(c, s, t) && t.pc != Done
    ensures Tail(c, input, t)
  {
    TailFrame(c, s, t);
    TailFlags(c, s, t);
    LastStaysEmpty(c, s, t);
    LooseStays(input, s, t);
  }

  /** The main thread neither regroups nor takes jobs back. */
  lemma TailFrame(c: Config, s: State, t: State)
    requires NoMoreTakes(c, s) && MainNext(c, s, t) && t.pc != Done
    ensures t.chunks == s.chunks && t.pool.workers == s.pool.workers && s.pool.queue <= t.pool.queue
  {
    assert !TakeChunks(c, s, t) && !MergeAll(c, s, t);
    MainKeepsChunks(c, s, t);
  }

  lemma TailFlags(c: Config, s: State, t: State)
    requires ValidConfig(c) && NoMoreTakes(c, s) && MainNext(c, s, t) && t.pc != Done
    ensures NoMoreTakes(c, t)
  {
  }

  lemma LastStaysEmpty(c: Config, s: State, t: State)
    requires ValidConfig(c) && (if s.exhausted then s.pc != Fill else s.lines == [])
    requires LastIsEmpty(s) && MainNext(c, s, t) && t.pc != Done
    ensures LastIsEmpty(t)
  {
    if SendSort(c, s, t) {
      assert t.sorts[|t.sorts| - 1] == s.lines;
    }
  }

  lemma LooseStays(input: Merging.Lines, s: State, t: State)
    requires t.chunks == s.chunks && t.pool.workers == s.pool.workers && s.pool.queue <= t.pool.queue
    requires Loose(input, s)
    ensures Loose(input, t)
  {
    if n :| 0 <= n < |s.pool.queue| && LooseJob(input, s.pool.queue[n]) {
      assert t.pool.queue[n] == s.pool.queue[n];
    }
  }

  lemma WorkerLoose(input: Merging.Lines, s: State, t: State, w: nat, early: bool)
    requires Loose(input, s) && WorkerNext(s, t, w, early)
    ensures Loose(input, t)
  {
    if n :| 0 <= n < |s.chunks| && Part(input, s.chunks[n].lines) {
      assert Part(input, t.chunks[n].lines);
    } else if n :| 0 <= n < |s.pool.queue| && LooseJob(input, s.pool.queue[n]) {
      if P.CanReceive(s.pool, w) && t.pool == P.Receive(s.pool, w, early) {
        if n == 0 {
          assert t.pool.workers[w].Running? && LooseJob(input, t.pool.workers[w].job);
        } else {
          assert LooseJob(input, t.pool.queue[n - 1]);
        }
      } else {
        assert LooseJob(input, t.pool.queue[n]);
      }
    } else {
      WorkerRunsLoose(input, s, t, w, early);
    }
  }

  lemma WorkerRunsLoose(input: Merging.Lines, s: State, t: State, w: nat, early: bool)
    requires exists v ::
      0 <= v < |s.pool.workers| && s.pool.workers[v].Running? && LooseJob(input, s.pool.workers[v].job)
    requires WorkerNext(s, t, w, early)
    ensures Loose(input, t)
  {
    var v :| 0 <= v < |s.pool.workers| && s.pool.workers[v].Running? && LooseJob(input, s.pool.workers[v].job);
    if v != w {
      assert t.pool.workers[v] == s.pool.workers[v];
    } else {
      var chunk :| FinishJob(s, t, w, chunk);
      SizeOf(chunk.lines, multiset(s.pool.workers[w].job.lines));
      assert t.chunks[|s.chunks|] == chunk;
    }
  }

  lemma WorkerTail(c: Config, input: Merging.Lines, s: State, t: State, w: nat, early: bool)
    requires Tail(c, input, s) && WorkerNext(s, t, w, early)
    ensures Tail(c, input, t)
  {
    WorkerLoose(input, s, t, w, early);
    WorkerPool(s, t, w, early);
  }

  lemma NextTail(c: Config, input: Merging.Lines, s: State, t: State, liberal: bool)
    requires ValidConfig(c) && Control(c, s) && Tail(c, input, s) && Next(c, s, t, liberal) && t.pc != Done
    ensures Tail(c, input, t)
  {
    if MainNext(c, s, t) {
      MainTail(c, input, s, t);
    } else {
      var w: nat, early: bool :| (early ==> liberal) && WorkerNext(s, t, w, early);
      WorkerTail(c, input, s, t, w, early);
    }
  }

  /** Such a state stays one until the final merge. */
  lemma CriticalStays(c: Config, input: Merging.Lines, s: State, t: State, liberal: bool)
    requires ValidConfig(c) && Control(c, s) && Critical(c, input, s) && Next(c, s, t, liberal) && t.pc != Done
    ensures Critical(c, input, t)
  {
    if e: Chunk, m: Chunk :| e in s.chunks && m in s.chunks && DoomedPair(input, e, m) {
      MergedStays(c, s, t, liberal, e);
      MergedStays(c, s, t, liberal, m);
    } else if m: Chunk :| m in s.chunks && m.merged && !Sorted(m.lines) {
      MergedStays(c, s, t, liberal, m);
    } else {
      NextTail(c, input, s, t, liberal);
    }
  }

  // ---------- the final merge of such a state ----------

  /** A heap that holds everything, with a part of it in one chunk, has another chunk with lines. */
  lemma PartLeavesMore(input: Merging.Lines, heap: seq<Merging.Lines>, i: nat)
    requires Union(heap) == multiset(input) && i < |heap| && Part(input, heap[i])
    ensures !AtMostOneNonEmpty(heap)
  {
    assert |multiset(input)| == |input| && |multiset(heap[i])| == |heap[i]|;
    if AtMostOneNonEmpty(heap) {
      OneNonEmptyUnion(heap, i);
    }
  }

  lemma DoomedAtOutput(c: Config, input: Merging.Lines, m: State)
    requires ValidConfig(c) && Core(c, input, m) && m.pc == Output && Doomed(input, m)
    ensures !NoEmptyChunk(LinesOf(m.chunks)) && !AtMostOneNonEmpty(LinesOf(m.chunks))
  {
    var e: Chunk, p: Chunk :| e in m.chunks && p in m.chunks && DoomedPair(input, e, p);
    var i :| 0 <= i < |m.chunks| && m.chunks[i] == e;
    var j :| 0 <= j < |m.chunks| && m.chunks[j] == p;
    assert LinesOf(m.chunks)[i] == [];
    OutputHoldsAll(c, input, m);
    PartLeavesMore(input, LinesOf(m.chunks), j);
  }

  lemma TailAtOutput(c: Config, input: Merging.Lines, m: State)
    requires ValidConfig(c) && Core(c, input, m) && m.pc == Output && Tail(c, input, m)
    ensures !NoEmptyChunk(LinesOf(m.chunks)) && !AtMostOneNonEmpty(LinesOf(m.chunks))
  {
    EmptyAtOutput(c, m);
    P.JoinedMeansDone(m.pool);
    var n :| 0 <= n < |m.chunks| && Part(input, m.chunks[n].lines);
    OutputHoldsAll(c, input, m);
    PartLeavesMore(input, LinesOf(m.chunks), n);
  }

  lemma BadAtOutput(c: Config, m: State)
    requires m.pc == Output && Bad(m)
    ensures !AllSorted(LinesOf(m.chunks))
  {
    var b: Chunk :| b in m.chunks && b.merged && !Sorted(b.lines);
    var n :| 0 <= n < |m.chunks| && m.chunks[n] == b;
    assert !Sorted(LinesOf(m.chunks)[n]);
  }

  /** Unless all lines are the same, the final merge of such a state can write unsorted output. */
  lemma CriticalAtOutput(c: Config, input: Merging.Lines, m: State) returns (out: Merging.Lines)
    requires ValidConfig(c) && Core(c, input, m) && m.pc == Output
    requires Critical(c, input, m) && !AllEqual(multiset(input))
    ensures MergeRun(LinesOf(m.chunks), out) && !Sorted(out)
  {
    var heap := LinesOf(m.chunks);
    OutputHoldsAll(c, input, m);
    if Bad(m) {
      BadAtOutput(c, m);
    } else if Doomed(input, m) {
      DoomedAtOutput(c, input, m);
    } else {
      TailAtOutput(c, input, m);
    }
    MergeSortedIff(heap);
    out :| MergeRun(heap, out) && !Sorted(out);
  }

  lemma ReachableThen(c: Config, files: seq<seq<byte>>, s: State, t: State, liberal: bool)
    requires Reachable(c, files, s, liberal) && Reaches(c, s, t, liberal)
    ensures Reachable(c, files, t, liberal)
  {
    ReachesTransitive(c, Init(c, InputLines(files)), s, t, liberal);
  }

  ghost predicate CriticalOrDone(c: Config, input: Merging.Lines, s: State)
    requires ValidConfig(c)
  {
    Inv(c, input, s) && (s.pc == Done || Critical(c, input, s))
  }

  lemma CriticalIsInductive(c: Config, input: Merging.Lines)
    requires ValidConfig(c)
    ensures Inductive(c, s => CriticalOrDone(c, input, s), false)
  {
    forall s, t | CriticalOrDone(c, input, s) && Next(c, s, t, false) ensures CriticalOrDone(c, input, t) {
      NextInv(c, input, s, t, false);
      if s.pc == Done {
        DoneIsStuck(c, s, t, false);
      } else if t.pc != Done {
        CriticalStays(c, input, s, t, false);
      }
    }
  }

  /** From such a state, for some choice that the contract of the heap leaves open, the output is not sorted. */
  lemma CriticalEnds(c: Config, files: seq<seq<byte>>, s: State) returns (t: State)
    requires ValidConfig(c) && Reachable(c, files, s, false)
    requires Critical(c, InputLines(files), s) && !AllEqual(multiset(InputLines(files)))
    ensures Reachable(c, files, t, false) && t.pc == Done && !Sorted(SplitLines(t.output))
  {
    var input := InputLines(files);
    ReachableInv(c, files, s, false);
    var m := SortProgress.ReachesOutput(c, s);
    CriticalIsInductive(c, input);
    var n: nat :| ReachesIn(c, s, m, false, n);
    InductiveHolds(c, x => CriticalOrDone(c, input, x), s, m, false, n);
    var out := CriticalAtOutput(c, input, m);
    t := m.(pc := Done, chunks := [], output := Unlines(out));
    C.MergeFree(m.chunks, out);
    SplitUnlines(out);
    assert MergeAll(c, m, t);
    ReachesOne(c, m, t, false);
    ReachableThen(c, files, s, m, false);
    ReachableThen(c, files, m, t, false);
  }
}
