/** What becomes of an empty batch at the end of the input. */
module SortEmptyBatch {
  import opened Merging
  import opened SortJobs
  import opened SortSystem
  import P = Pool

  /** An empty batch is queued, is being sorted, or is in the vector. */
  ghost predicate HasEmpty(s: State) {
    || (exists n :: 0 <= n < |s.pool.queue| && s.pool.queue[n] == Sort([]))
    || (exists w :: 0 <= w < |s.pool.workers| && s.pool.workers[w] == P.Running(Sort([])))
    || (exists n :: 0 <= n < |s.chunks| && s.chunks[n].lines == [])
  }

  /** Once the input has ended, an empty last batch is not merged any more before the final merge. */
  ghost predicate EmptyKept(s: State) {
    s.exhausted && s.pc !in {SubmitSort, Done} ==>
      s.sorts != [] && (s.sorts[|s.sorts| - 1] == [] ==> HasEmpty(s))
  }

  lemma MainEmptyKept(c: Config, s: State, t: State)
    requires Control(c, s) && EmptyKept(s) && MainNext(c, s, t)
    ensures EmptyKept(t)
  {
    if SendSort(c, s, t) {
      assert t.pool.queue[|t.pool.queue| - 1] == Sort(s.lines);
      assert t.sorts[|t.sorts| - 1] == s.lines;
    } else if t.exhausted && t.pc !in {SubmitSort, Done} {
      assert t.sorts == s.sorts && t.chunks == s.chunks;
      assert t.pool.queue == s.pool.queue && t.pool.workers == s.pool.workers;
    }
  }

  lemma WorkerHasEmpty(s: State, t: State, w: nat, early: bool)
    requires HasEmpty(s) && WorkerNext(s, t, w, early)
    ensures HasEmpty(t)
  {
    if n :| 0 <= n < |s.chunks| && s.chunks[n].lines == [] {
      assert t.chunks[n].lines == [];
    } else if n :| 0 <= n < |s.pool.queue| && s.pool.queue[n] == Sort([]) {
      if P.CanReceive(s.pool, w) && t.pool == P.Receive(s.pool, w, early) {
        if n == 0 {
          assert t.pool.workers[w] == P.Running(Sort([]));
        } else {
          assert t.pool.queue[n - 1] == Sort([]);
        }
      } else {
        assert t.pool.queue[n] == Sort([]);
      }
    } else {
      WorkerRunningEmpty(s, t, w, early);
    }
  }

  lemma WorkerRunningEmpty(s: State, t: State, w: nat, early: bool)
    requires exists v :: 0 <= v < |s.pool.workers| && s.pool.workers[v] == P.Running(Sort([]))
    requires WorkerNext(s, t, w, early)
    ensures HasEmpty(t)
  {
    var v :| 0 <= v < |s.pool.workers| && s.pool.workers[v] == P.Running(Sort([]));
    if v != w {
      assert t.pool.workers[v] == s.pool.workers[v];
    } else {
      var chunk :| FinishJob(s, t, w, chunk);
      assert |multiset(chunk.lines)| == 0;
      assert t.chunks[|s.chunks|] == chunk;
    }
  }

  lemma NextEmptyKept(c: Config, s: State, t: State, liberal: bool)
    requires Control(c, s) && EmptyKept(s) && Next(c, s, t, liberal)
    ensures EmptyKept(t)
  {
    if MainNext(c, s, t) {
      MainEmptyKept(c, s, t);
    } else {
      var w: nat, early: bool :| (early ==> liberal) && WorkerNext(s, t, w, early);
      WorkerPool(s, t, w, early);
      if HasEmpty(s) {
        WorkerHasEmpty(s, t, w, early);
      }
    }
  }

  lemma EmptyAtOutput(c: Config, s: State)
    requires Control(c, s) && s.pc == Output && HasEmpty(s)
    ensures !NoEmptyChunk(LinesOf(s.chunks))
  {
    P.JoinedMeansDone(s.pool);
    var n :| 0 <= n < |s.chunks| && s.chunks[n].lines == [];
    assert LinesOf(s.chunks)[n] == [];
  }
}
