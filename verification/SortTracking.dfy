/** Where each batch of `sort` is: which batches every job and every chunk holds, followed along a run. */
module SortTracking {
  import opened Bytes
  import opened Merging
  import opened Sequences
  import opened SortJobs
  import opened SortSystem
  import P = Pool
  import C = SortConservation
  import opened SortCorrectness

  /** Batches, numbered in the order in which they are sent. */
  type Tags = seq<nat>

  /** The batches held by each job and chunk of a state, and those handed to merge jobs so far. */
  datatype Track = Track(pending: seq<Tags>, queue: seq<Tags>, workers: seq<Tags>, chunks: seq<Tags>, handed: Tags)

  function InitTrack(c: Config): Track {
    Track([], [], seq(c.threads, _ => []), [], [])
  }

  // ---------- how batches move ----------

  function Flat(all: seq<Tags>): Tags {
    if all == [] then [] else all[0] + Flat(all[1..])
  }

  /** The tags of the chunks that regrouping keeps. */
  function KeptTags(chunks: seq<Chunk>, tags: seq<Tags>): (r: seq<Tags>)
    requires |chunks| == |tags|
    ensures |r| == |Kept(chunks)|
  {
    if chunks == [] then [] else (if Mergeable(chunks[0]) then [] else [tags[0]]) + KeptTags(chunks[1..], tags[1..])
  }

  /** The tags of the chunks that it takes. */
  function TakenTags(chunks: seq<Chunk>, tags: seq<Tags>): (r: seq<Tags>)
    requires |chunks| == |tags|
    ensures |r| == |Taken(chunks)|
  {
    if chunks == [] then [] else (if Mergeable(chunks[0]) then [tags[0]] else []) + TakenTags(chunks[1..], tags[1..])
  }

  /** The tags of the jobs into which chunks are grouped. */
  function GroupTags(tags: seq<Tags>): seq<Tags> {
    if tags == [] then []
    else if |tags| <= N_WAY_MERGE then [Flat(tags)]
    else [Flat(tags[..N_WAY_MERGE])] + GroupTags(tags[N_WAY_MERGE..])
  }

  ghost predicate Fits(s: State, a: Track) {
    && |a.pending| == |s.pending| && |a.queue| == |s.pool.queue|
    && |a.workers| == |s.pool.workers| && |a.chunks| == |s.chunks|
  }

  /** A step of the main thread: a new batch gets the next number, and chunks keep theirs. */
  ghost function MainTrack(c: Config, s: State, a: Track): Track
    requires Fits(s, a)
  {
    match s.pc
    case SubmitSort => a.(queue := a.queue + [[|s.sorts|]])
    case Decide =>
      if MustMerge(c, s) then
        var taken := TakenTags(s.chunks, a.chunks);
        a.(chunks := KeptTags(s.chunks, a.chunks), pending := GroupTags(taken), handed := a.handed + Flat(taken))
      else a
    case SubmitMerges =>
      if s.pending != [] then a.(queue := a.queue + [a.pending[0]], pending := a.pending[1..]) else a
    case Output => a.(chunks := [])
    case _ => a
  }

  /** A step of worker w: the job it takes and the chunk it pushes hold the same batches. */
  ghost function WorkerTrack(s: State, a: Track, w: nat): Track
    requires Fits(s, a) && w < |s.pool.workers|
  {
    match s.pool.workers[w]
    case Receiving =>
      if s.pool.queue != [] then a.(workers := a.workers[w := a.queue[0]], queue := a.queue[1..]) else a
    case Running(_) => a.(workers := a.workers[w := []], chunks := a.chunks + [a.workers[w]])
    case _ => a
  }

  ghost predicate TrackNext(c: Config, s: State, a: Track, t: State, b: Track, liberal: bool) {
    && Fits(s, a)
    && (|| (MainNext(c, s, t) && b == MainTrack(c, s, a))
        || (exists w: nat, early: bool ::
              (early ==> liberal) && WorkerNext(s, t, w, early) && w < |s.pool.workers| && b == WorkerTrack(s, a, w)))
  }

  // ---------- where a batch is ----------

  ghost function Count(tags: Tags, i: nat): nat {
    multiset(tags)[i]
  }

  ghost function CountAll(all: seq<Tags>, i: nat): nat {
    if all == [] then 0 else Count(all[0], i) + CountAll(all[1..], i)
  }

  /** How often batch i occurs among the jobs and the chunks. */
  ghost function Places(a: Track, i: nat): nat {
    CountAll(a.pending, i) + CountAll(a.queue, i) + CountAll(a.workers, i) + CountAll(a.chunks, i)
  }

  /** How often batch i occurs in jobs that sort. */
  ghost function InSorts(jobs: seq<Job>, tags: seq<Tags>, i: nat): nat
    requires |jobs| == |tags|
  {
    if jobs == [] then 0 else (if jobs[0].Sort? then Count(tags[0], i) else 0) + InSorts(jobs[1..], tags[1..], i)
  }

  ghost predicate Sorting(worker: P.Worker<Job>) {
    worker.Running? && worker.job.Sort?
  }

  ghost function InSorters(workers: seq<P.Worker<Job>>, tags: seq<Tags>, i: nat): nat
    requires |workers| == |tags|
  {
    if workers == [] then 0
    else (if Sorting(workers[0]) then Count(tags[0], i) else 0) + InSorters(workers[1..], tags[1..], i)
  }

  /** How often batch i occurs outside of merge jobs and merged chunks. */
  ghost function Unmerged(s: State, a: Track, i: nat): nat
    requires Fits(s, a)
  {
    InSorts(s.pool.queue, a.queue, i) + InSorters(s.pool.workers, a.workers, i)
    + CountAll(TakenTags(s.chunks, a.chunks), i)
  }

  function Sent(s: State, i: nat): nat {
    if i < |s.sorts| then 1 else 0
  }

  /** Batch i, once sent, is in exactly one place, and was either never handed to a merge job, or once. */
  ghost predicate InOnePlace(s: State, a: Track, i: nat)
    requires Fits(s, a)
  {
    && Count(a.handed, i) <= 1
    && (s.pc != Done ==> Places(a, i) == Sent(s, i) && Count(a.handed, i) + Unmerged(s, a, i) == Sent(s, i))
  }

  // ---------- counting ----------

  lemma CountConcat(x: Tags, y: Tags, i: nat)
    ensures Count(x + y, i) == Count(x, i) + Count(y, i)
  {
  }

  lemma {:induction false} CountAllConcat(x: seq<Tags>, y: seq<Tags>, i: nat)
    ensures CountAll(x + y, i) == CountAll(x, i) + CountAll(y, i)
  {
    if x == [] {
      assert x + y == y;
    } else {
      assert (x + y)[1..] == x[1..] + y;
      CountAllConcat(x[1..], y, i);
    }
  }

  lemma CountOne(tags: Tags, i: nat)
    ensures CountAll([tags], i) == Count(tags, i)
  {
    assert [tags][1..] == [];
  }

  lemma {:induction false} CountFlat(all: seq<Tags>, i: nat)
    ensures Count(Flat(all), i) == CountAll(all, i)
  {
    if all == [] {
    } else {
      CountFlat(all[1..], i);
      CountConcat(all[0], Flat(all[1..]), i);
    }
  }

  lemma {:induction false} CountUpdate(all: seq<Tags>, w: nat, tags: Tags, i: nat)
    requires w < |all|
    ensures CountAll(all[w := tags], i) + Count(all[w], i) == CountAll(all, i) + Count(tags, i)
  {
    if w == 0 {
      assert all[w := tags][1..] == all[1..];
    } else {
      assert all[w := tags][1..] == all[1..][w - 1 := tags];
      CountUpdate(all[1..], w - 1, tags, i);
    }
  }

  /** Regrouping keeps or takes the tags of every chunk. */
  lemma {:induction false} RegroupCount(chunks: seq<Chunk>, tags: seq<Tags>, i: nat)
    requires |chunks| == |tags|
    ensures CountAll(KeptTags(chunks, tags), i) + CountAll(TakenTags(chunks, tags), i) == CountAll(tags, i)
    decreases |chunks|
  {
    if chunks == [] {
    } else {
      RegroupCount(chunks[1..], tags[1..], i);
      CountAllConcat(if Mergeable(chunks[0]) then [] else [tags[0]], KeptTags(chunks[1..], tags[1..]), i);
      CountAllConcat(if Mergeable(chunks[0]) then [tags[0]] else [], TakenTags(chunks[1..], tags[1..]), i);
      CountOne(tags[0], i);
    }
  }

  lemma {:induction false} GroupCount(tags: seq<Tags>, i: nat)
    ensures CountAll(GroupTags(tags), i) == CountAll(tags, i)
    decreases |tags|
  {
    if |tags| <= N_WAY_MERGE {
      CountFlat(tags, i);
      CountOne(Flat(tags), i);
    } else {
      var first, rest := tags[..N_WAY_MERGE], tags[N_WAY_MERGE..];
      GroupCount(rest, i);
      CountFlat(first, i);
      assert tags == first + rest;
      CountAllConcat(first, rest, i);
      CountAllConcat([Flat(first)], GroupTags(rest), i);
      CountOne(Flat(first), i);
    }
  }

  lemma {:induction false} GroupLength(chunks: seq<Chunk>, tags: seq<Tags>, flush: bool)
    requires |chunks| == |tags|
    ensures |GroupTags(tags)| == |GroupJobs(chunks, flush)|
    decreases |chunks|
  {
    if |chunks| <= N_WAY_MERGE {
    } else {
      GroupLength(chunks[N_WAY_MERGE..], tags[N_WAY_MERGE..], flush);
    }
  }

  /** Nothing that was kept would be taken. */
  lemma {:induction false} TakenOfKept(chunks: seq<Chunk>, tags: seq<Tags>)
    requires |chunks| == |tags|
    ensures TakenTags(Kept(chunks), KeptTags(chunks, tags)) == []
    decreases |chunks|
  {
    if chunks == [] {
    } else {
      TakenOfKept(chunks[1..], tags[1..]);
      var kept, keptTags := Kept(chunks[1..]), KeptTags(chunks[1..], tags[1..]);
      if Mergeable(chunks[0]) {
        assert [] + kept == kept && [] + keptTags == keptTags;
      } else {
        assert ([chunks[0]] + kept)[1..] == kept && ([tags[0]] + keptTags)[1..] == keptTags;
      }
    }
  }

  lemma {:induction false} TakenSnoc(chunks: seq<Chunk>, tags: seq<Tags>, chunk: Chunk, tag: Tags)
    requires |chunks| == |tags|
    ensures TakenTags(chunks + [chunk], tags + [tag])
         == TakenTags(chunks, tags) + if Mergeable(chunk) then [tag] else []
    decreases |chunks|
  {
    if chunks == [] {
      assert [] + [chunk] == [chunk] && [] + [tag] == [tag];
    } else {
      assert (chunks + [chunk])[1..] == chunks[1..] + [chunk] && (tags + [tag])[1..] == tags[1..] + [tag];
      TakenSnoc(chunks[1..], tags[1..], chunk, tag);
      Associative(if Mergeable(chunks[0]) then [tags[0]] else [], TakenTags(chunks[1..], tags[1..]),
                  if Mergeable(chunk) then [tag] else []);
    }
  }

  lemma {:induction false} InSortsSnoc(jobs: seq<Job>, tags: seq<Tags>, job: Job, tag: Tags, i: nat)
    requires |jobs| == |tags|
    ensures InSorts(jobs + [job], tags + [tag], i) == InSorts(jobs, tags, i) + if job.Sort? then Count(tag, i) else 0
    decreases |jobs|
  {
    if jobs == [] {
      assert [] + [job] == [job] && [] + [tag] == [tag];
    } else {
      assert (jobs + [job])[1..] == jobs[1..] + [job] && (tags + [tag])[1..] == tags[1..] + [tag];
      InSortsSnoc(jobs[1..], tags[1..], job, tag, i);
    }
  }

  ghost function InSorter(worker: P.Worker<Job>, tags: Tags, i: nat): nat {
    if Sorting(worker) then Count(tags, i) else 0
  }

  lemma {:induction false} InSortersUpdate(workers: seq<P.Worker<Job>>, tags: seq<Tags>, w: nat,
                                           worker: P.Worker<Job>, tag: Tags, i: nat)
    requires |workers| == |tags| && w < |workers|
    ensures InSorters(workers[w := worker], tags[w := tag], i) + InSorter(workers[w], tags[w], i)
         == InSorters(workers, tags, i) + InSorter(worker, tag, i)
    decreases w
  {
    if w == 0 {
      assert workers[w := worker][1..] == workers[1..] && tags[w := tag][1..] == tags[1..];
    } else {
      assert workers[w := worker][1..] == workers[1..][w - 1 := worker];
      assert tags[w := tag][1..] == tags[1..][w - 1 := tag];
      InSortersUpdate(workers[1..], tags[1..], w - 1, worker, tag, i);
    }
  }

  // ---------- every step keeps a batch in one place ----------

  lemma SendSortPlace(c: Config, s: State, a: Track, t: State, i: nat)
    requires Fits(s, a) && InOnePlace(s, a, i) && SendSort(c, s, t)
    ensures Fits(t, MainTrack(c, s, a)) && InOnePlace(t, MainTrack(c, s, a), i)
  {
    var tag := [|s.sorts|];
    CountAllConcat(a.queue, [tag], i);
    CountOne(tag, i);
    InSortsSnoc(s.pool.queue, a.queue, Sort(s.lines), tag, i);
    assert Count(tag, i) == if i == |s.sorts| then 1 else 0;
  }

  lemma TakenCounts(chunks: seq<Chunk>, all: seq<Tags>, handed: Tags, i: nat)
    requires |chunks| == |all|
    ensures var taken := TakenTags(chunks, all);
            && CountAll(KeptTags(chunks, all), i) + CountAll(GroupTags(taken), i) == CountAll(all, i)
            && Count(handed + Flat(taken), i) == Count(handed, i) + CountAll(taken, i)
            && CountAll(TakenTags(Kept(chunks), KeptTags(chunks, all)), i) == 0
  {
    var taken := TakenTags(chunks, all);
    RegroupCount(chunks, all, i);
    GroupCount(taken, i);
    CountFlat(taken, i);
    CountConcat(handed, Flat(taken), i);
    TakenOfKept(chunks, all);
  }

  lemma TakePlace(c: Config, s: State, a: Track, t: State, i: nat)
    requires s.pending == [] && Fits(s, a) && InOnePlace(s, a, i) && TakeChunks(c, s, t)
    ensures Fits(t, MainTrack(c, s, a)) && InOnePlace(t, MainTrack(c, s, a), i)
  {
    var taken := TakenTags(s.chunks, a.chunks);
    GroupLength(Taken(s.chunks), taken, s.bytes > c.bufferSize);
    TakenCounts(s.chunks, a.chunks, a.handed, i);
    TakenIn(s, a, t, KeptTags(s.chunks, a.chunks), GroupTags(taken), a.handed + Flat(taken), i);
  }

  lemma TakenIn(s: State, a: Track, t: State, kept: seq<Tags>, pending: seq<Tags>, handed: Tags, i: nat)
    requires s.pending == [] && Fits(s, a) && InOnePlace(s, a, i) && s.pc != Done && t.pc != Done
    requires t.sorts == s.sorts && t.pool == s.pool
    requires Fits(t, a.(chunks := kept, pending := pending, handed := handed))
    requires CountAll(kept, i) + CountAll(pending, i) == CountAll(a.chunks, i)
    requires Count(handed, i) == Count(a.handed, i) + CountAll(TakenTags(s.chunks, a.chunks), i)
    requires CountAll(TakenTags(t.chunks, kept), i) == 0
    ensures InOnePlace(t, a.(chunks := kept, pending := pending, handed := handed), i)
  {
    assert a.pending == [];
  }

  /** The jobs waiting to be sent all merge. */
  ghost predicate MergesPending(s: State) {
    AllMerges(s.pending)
  }

  lemma SendMergePlace(c: Config, s: State, a: Track, t: State, i: nat)
    requires Fits(s, a) && InOnePlace(s, a, i) && SendMerge(c, s, t) && MergesPending(s)
    ensures Fits(t, MainTrack(c, s, a)) && InOnePlace(t, MainTrack(c, s, a), i)
  {
    CountAllConcat(a.queue, [a.pending[0]], i);
    CountOne(a.pending[0], i);
    InSortsSnoc(s.pool.queue, a.queue, s.pending[0], a.pending[0], i);
  }

  /** The other steps of the main thread move no batch. */
  lemma QuietMain(c: Config, s: State, a: Track, t: State)
    requires Fits(s, a) && MainNext(c, s, t)
    requires !SendSort(c, s, t) && !TakeChunks(c, s, t) && !SendMerge(c, s, t) && !MergeAll(c, s, t)
    ensures MainTrack(c, s, a) == a && s.pc != Done && t.pc != Done
    ensures t.pending == s.pending && t.chunks == s.chunks && t.sorts == s.sorts
    ensures t.pool.queue == s.pool.queue && t.pool.workers == s.pool.workers
  {
    QuietStep(c, s, t);
  }

  lemma QuietMainPlace(c: Config, s: State, a: Track, t: State, i: nat)
    requires Fits(s, a) && InOnePlace(s, a, i) && MainNext(c, s, t)
    requires !SendSort(c, s, t) && !TakeChunks(c, s, t) && !SendMerge(c, s, t) && !MergeAll(c, s, t)
    ensures Fits(t, MainTrack(c, s, a)) && InOnePlace(t, MainTrack(c, s, a), i)
  {
    QuietMain(c, s, a, t);
    SamePlaces(s, a, t, i);
  }

  lemma SamePlaces(s: State, a: Track, t: State, i: nat)
    requires Fits(s, a) && InOnePlace(s, a, i) && s.pc != Done
    requires t.pending == s.pending && t.chunks == s.chunks && t.sorts == s.sorts
    requires t.pool.queue == s.pool.queue && t.pool.workers == s.pool.workers
    ensures Fits(t, a) && InOnePlace(t, a, i)
  {
  }

  lemma OutputPlace(c: Config, s: State, a: Track, t: State, i: nat)
    requires Fits(s, a) && InOnePlace(s, a, i) && s.pc == Output
    requires t == s.(pc := Done, chunks := [], output := t.output)
    ensures Fits(t, MainTrack(c, s, a)) && InOnePlace(t, MainTrack(c, s, a), i)
  {
  }

  lemma MainPlace(c: Config, s: State, a: Track, t: State, i: nat)
    requires Control(c, s) && Fits(s, a) && InOnePlace(s, a, i) && MergesPending(s) && MainNext(c, s, t)
    ensures Fits(t, MainTrack(c, s, a)) && InOnePlace(t, MainTrack(c, s, a), i)
  {
    if SendSort(c, s, t) {
      SendSortPlace(c, s, a, t, i);
    } else if TakeChunks(c, s, t) {
      TakePlace(c, s, a, t, i);
    } else if SendMerge(c, s, t) {
      SendMergePlace(c, s, a, t, i);
    } else if MergeAll(c, s, t) {
      OutputStep(c, s, t);
      OutputPlace(c, s, a, t, i);
    } else {
      QuietMainPlace(c, s, a, t, i);
    }
  }

  /** A worker that does not run a job holds no batch. */
  ghost predicate HandsFree(s: State, a: Track)
    requires Fits(s, a)
  {
    forall w :: 0 <= w < |s.pool.workers| && !s.pool.workers[w].Running? ==> a.workers[w] == []
  }

  lemma ReceivePlace(s: State, a: Track, t: State, w: nat, early: bool, i: nat)
    requires Fits(s, a) && HandsFree(s, a) && InOnePlace(s, a, i)
    requires P.CanReceive(s.pool, w) && t == s.(pool := P.Receive(s.pool, w, early))
    ensures Fits(t, WorkerTrack(s, a, w)) && InOnePlace(t, WorkerTrack(s, a, w), i)
  {
    CountUpdate(a.workers, w, a.queue[0], i);
    InSortersUpdate(s.pool.workers, a.workers, w, P.Running(s.pool.queue[0]), a.queue[0], i);
    assert a.workers[w] == [];
  }

  lemma PushedPlace(chunks: seq<Chunk>, all: seq<Tags>, chunk: Chunk, tags: Tags, i: nat)
    requires |chunks| == |all|
    ensures CountAll(all + [tags], i) == CountAll(all, i) + Count(tags, i)
    ensures CountAll(TakenTags(chunks + [chunk], all + [tags]), i)
         == CountAll(TakenTags(chunks, all), i) + if Mergeable(chunk) then Count(tags, i) else 0
  {
    CountAllConcat(all, [tags], i);
    CountOne(tags, i);
    TakenSnoc(chunks, all, chunk, tags);
    CountAllConcat(TakenTags(chunks, all), if Mergeable(chunk) then [tags] else [], i);
  }

  lemma ResultKind(job: Job, chunk: Chunk)
    requires JobResult(job, chunk)
    ensures Mergeable(chunk) == job.Sort?
  {
  }

  /** What a finished job held, the pushed chunk holds. */
  lemma FinishCounts(workers: seq<P.Worker<Job>>, held: seq<Tags>, chunks: seq<Chunk>, all: seq<Tags>,
                     w: nat, chunk: Chunk, i: nat)
    requires |workers| == |held| && |chunks| == |all| && w < |workers| && workers[w].Running?
    requires Mergeable(chunk) == workers[w].job.Sort?
    ensures CountAll(held[w := []], i) + CountAll(all + [held[w]], i) == CountAll(held, i) + CountAll(all, i)
    ensures InSorters(workers[w := P.Waiting], held[w := []], i)
            + CountAll(TakenTags(chunks + [chunk], all + [held[w]]), i)
         == InSorters(workers, held, i) + CountAll(TakenTags(chunks, all), i)
  {
    CountUpdate(held, w, [], i);
    InSortersUpdate(workers, held, w, P.Waiting, [], i);
    PushedPlace(chunks, all, chunk, held[w], i);
  }

  lemma FinishPlace(s: State, a: Track, t: State, w: nat, chunk: Chunk, i: nat)
    requires Fits(s, a) && InOnePlace(s, a, i) && P.CanComplete(s.pool, w)
    requires Mergeable(chunk) == s.pool.workers[w].job.Sort?
    requires t == s.(pool := P.Complete(s.pool, w), chunks := s.chunks + [chunk])
    ensures Fits(t, WorkerTrack(s, a, w)) && InOnePlace(t, WorkerTrack(s, a, w), i)
  {
    FinishCounts(s.pool.workers, a.workers, s.chunks, a.chunks, w, chunk, i);
  }

  /** A worker that takes the lock or leaves moves no batch. */
  lemma QuietPlace(s: State, a: Track, t: State, w: nat, worker: P.Worker<Job>, i: nat)
    requires Fits(s, a) && HandsFree(s, a) && InOnePlace(s, a, i)
    requires w < |s.pool.workers| && !s.pool.workers[w].Running? && !worker.Running?
    requires t == s.(pool := t.pool) && t.pool.queue == s.pool.queue && t.pool.workers == s.pool.workers[w := worker]
    ensures Fits(t, a) && HandsFree(t, a) && InOnePlace(t, a, i)
  {
    InSortersUpdate(s.pool.workers, a.workers, w, worker, [], i);
    assert a.workers[w := []] == a.workers;
  }

  lemma WorkerPlace(s: State, a: Track, t: State, w: nat, early: bool, i: nat)
    requires Fits(s, a) && HandsFree(s, a) && InOnePlace(s, a, i) && WorkerNext(s, t, w, early) && w < |s.pool.workers|
    ensures Fits(t, WorkerTrack(s, a, w)) && InOnePlace(t, WorkerTrack(s, a, w), i)
  {
    if chunk :| FinishJob(s, t, w, chunk) {
      ResultKind(s.pool.workers[w].job, chunk);
      FinishPlace(s, a, t, w, chunk, i);
    } else if P.CanReceive(s.pool, w) && t.pool == P.Receive(s.pool, w, early) {
      ReceivePlace(s, a, t, w, early, i);
    } else if P.CanAcquire(s.pool, w) {
      QuietPlace(s, a, t, w, P.Receiving, i);
    } else {
      QuietPlace(s, a, t, w, P.Exited, i);
    }
  }

  // ---------- tags tell the truth ----------

  /** The batches of the tags hold x this often. */
  ghost function Sum(sorts: seq<Merging.Lines>, tags: Tags, x: Line): nat {
    if tags == [] then 0
    else (if tags[0] < |sorts| then C.Occurs(sorts[tags[0]], x) else 0) + Sum(sorts, tags[1..], x)
  }

  ghost predicate Known(sorts: seq<Merging.Lines>, tags: Tags) {
    forall k :: 0 <= k < |tags| ==> tags[k] < |sorts|
  }

  /** A chunk holds exactly the lines of its batches. */
  ghost predicate ChunkLabel(sorts: seq<Merging.Lines>, tags: Tags, chunk: Chunk) {
    Known(sorts, tags) && forall x :: C.Occurs(chunk.lines, x) == Sum(sorts, tags, x)
  }

  ghost predicate JobLabel(sorts: seq<Merging.Lines>, tags: Tags, job: Job) {
    Known(sorts, tags) && forall x :: C.JobOccurs(job, x) == Sum(sorts, tags, x)
  }

  ghost predicate ChunkLabels(sorts: seq<Merging.Lines>, tags: seq<Tags>, chunks: seq<Chunk>) {
    |tags| == |chunks| && forall n :: 0 <= n < |chunks| ==> ChunkLabel(sorts, tags[n], chunks[n])
  }

  ghost predicate JobLabels(sorts: seq<Merging.Lines>, tags: seq<Tags>, jobs: seq<Job>) {
    |tags| == |jobs| && forall n :: 0 <= n < |jobs| ==> JobLabel(sorts, tags[n], jobs[n])
  }

  ghost predicate WorkerLabels(sorts: seq<Merging.Lines>, tags: seq<Tags>, workers: seq<P.Worker<Job>>) {
    && |tags| == |workers|
    && forall w :: 0 <= w < |workers| && workers[w].Running? ==> JobLabel(sorts, tags[w], workers[w].job)
  }

  /** Every job and every chunk holds exactly the lines of the batches it is said to hold. */
  ghost predicate Labelled(s: State, a: Track) {
    && JobLabels(s.sorts, a.pending, s.pending) && JobLabels(s.sorts, a.queue, s.pool.queue)
    && WorkerLabels(s.sorts, a.workers, s.pool.workers) && ChunkLabels(s.sorts, a.chunks, s.chunks)
  }

  lemma {:induction false} SumConcat(sorts: seq<Merging.Lines>, x: Tags, y: Tags, line: Line)
    ensures Sum(sorts, x + y, line) == Sum(sorts, x, line) + Sum(sorts, y, line)
  {
    if x == [] {
      assert x + y == y;
    } else {
      assert (x + y)[1..] == x[1..] + y;
      SumConcat(sorts, x[1..], y, line);
    }
  }

  /** A further batch changes nothing about the batches before it. */
  lemma {:induction false} SumGrows(sorts: seq<Merging.Lines>, batch: Merging.Lines, tags: Tags, x: Line)
    requires Known(sorts, tags)
    ensures Sum(sorts + [batch], tags, x) == Sum(sorts, tags, x)
  {
    if tags == [] {
    } else {
      SumGrows(sorts, batch, tags[1..], x);
      assert (sorts + [batch])[tags[0]] == sorts[tags[0]];
    }
  }

  lemma ChunkLabelGrows(sorts: seq<Merging.Lines>, batch: Merging.Lines, tags: Tags, chunk: Chunk)
    requires ChunkLabel(sorts, tags, chunk)
    ensures ChunkLabel(sorts + [batch], tags, chunk)
  {
    forall x ensures C.Occurs(chunk.lines, x) == Sum(sorts + [batch], tags, x) {
      SumGrows(sorts, batch, tags, x);
    }
  }

  lemma JobLabelGrows(sorts: seq<Merging.Lines>, batch: Merging.Lines, tags: Tags, job: Job)
    requires JobLabel(sorts, tags, job)
    ensures JobLabel(sorts + [batch], tags, job)
  {
    forall x ensures C.JobOccurs(job, x) == Sum(sorts + [batch], tags, x) {
      SumGrows(sorts, batch, tags, x);
    }
  }

  lemma LabelsGrow(s: State, a: Track, batch: Merging.Lines)
    requires Labelled(s, a)
    ensures Labelled(s.(sorts := s.sorts + [batch]), a)
  {
    var sorts := s.sorts + [batch];
    forall n | 0 <= n < |s.pending| ensures JobLabel(sorts, a.pending[n], s.pending[n]) {
      JobLabelGrows(s.sorts, batch, a.pending[n], s.pending[n]);
    }
    forall n | 0 <= n < |s.pool.queue| ensures JobLabel(sorts, a.queue[n], s.pool.queue[n]) {
      JobLabelGrows(s.sorts, batch, a.queue[n], s.pool.queue[n]);
    }
    forall w | 0 <= w < |s.pool.workers| && s.pool.workers[w].Running?
      ensures JobLabel(sorts, a.workers[w], s.pool.workers[w].job)
    {
      JobLabelGrows(s.sorts, batch, a.workers[w], s.pool.workers[w].job);
    }
    forall n | 0 <= n < |s.chunks| ensures ChunkLabel(sorts, a.chunks[n], s.chunks[n]) {
      ChunkLabelGrows(s.sorts, batch, a.chunks[n], s.chunks[n]);
    }
  }

  lemma NewBatchLabel(sorts: seq<Merging.Lines>, batch: Merging.Lines)
    ensures JobLabel(sorts + [batch], [|sorts|], Sort(batch))
  {
    forall x ensures C.JobOccurs(Sort(batch), x) == Sum(sorts + [batch], [|sorts|], x) {
      assert [|sorts|][1..] == [];
    }
  }

  lemma SendSortLabels(c: Config, s: State, a: Track, t: State)
    requires Fits(s, a) && Labelled(s, a) && SendSort(c, s, t)
    ensures Labelled(t, MainTrack(c, s, a))
  {
    LabelsGrow(s, a, s.lines);
    NewBatchLabel(s.sorts, s.lines);
  }

  lemma LabelsConcat(sorts: seq<Merging.Lines>, x: seq<Tags>, a: seq<Chunk>, y: seq<Tags>, b: seq<Chunk>)
    requires ChunkLabels(sorts, x, a) && ChunkLabels(sorts, y, b)
    ensures ChunkLabels(sorts, x + y, a + b)
  {
  }

  lemma {:induction false} RegroupLabels(sorts: seq<Merging.Lines>, tags: seq<Tags>, chunks: seq<Chunk>)
    requires ChunkLabels(sorts, tags, chunks)
    ensures ChunkLabels(sorts, KeptTags(chunks, tags), Kept(chunks))
    ensures ChunkLabels(sorts, TakenTags(chunks, tags), Taken(chunks))
    decreases |chunks|
  {
    if chunks == [] {
    } else {
      var kept, keptTags := Kept(chunks[1..]), KeptTags(chunks[1..], tags[1..]);
      var taken, takenTags := Taken(chunks[1..]), TakenTags(chunks[1..], tags[1..]);
      RegroupLabels(sorts, tags[1..], chunks[1..]);
      assert ChunkLabel(sorts, tags[0], chunks[0]);
      if Mergeable(chunks[0]) {
        LabelsConcat(sorts, [], [], keptTags, kept);
        LabelsConcat(sorts, [tags[0]], [chunks[0]], takenTags, taken);
      } else {
        LabelsConcat(sorts, [tags[0]], [chunks[0]], keptTags, kept);
        LabelsConcat(sorts, [], [], takenTags, taken);
      }
    }
  }

  lemma {:induction false} FlatSum(sorts: seq<Merging.Lines>, tags: seq<Tags>, chunks: seq<Chunk>, x: Line)
    requires ChunkLabels(sorts, tags, chunks)
    ensures C.ChunksOccur(chunks, x) == Sum(sorts, Flat(tags), x)
    decreases |chunks|
  {
    if chunks == [] {
    } else {
      FlatSum(sorts, tags[1..], chunks[1..], x);
      SumConcat(sorts, tags[0], Flat(tags[1..]), x);
      assert ChunkLabel(sorts, tags[0], chunks[0]);
    }
  }

  lemma {:induction false} FlatKnown(sorts: seq<Merging.Lines>, tags: seq<Tags>, chunks: seq<Chunk>)
    requires ChunkLabels(sorts, tags, chunks)
    ensures Known(sorts, Flat(tags))
    decreases |chunks|
  {
    if chunks == [] {
    } else {
      FlatKnown(sorts, tags[1..], chunks[1..]);
      assert ChunkLabel(sorts, tags[0], chunks[0]);
    }
  }

  lemma GroupLabel(sorts: seq<Merging.Lines>, tags: seq<Tags>, chunks: seq<Chunk>, flush: bool)
    requires ChunkLabels(sorts, tags, chunks)
    ensures JobLabel(sorts, Flat(tags), MergeJob(chunks, flush))
  {
    FlatKnown(sorts, tags, chunks);
    forall x ensures C.JobOccurs(MergeJob(chunks, flush), x) == Sum(sorts, Flat(tags), x) {
      FlatSum(sorts, tags, chunks, x);
    }
  }

  lemma {:induction false} GroupsLabels(sorts: seq<Merging.Lines>, tags: seq<Tags>, chunks: seq<Chunk>, flush: bool)
    requires ChunkLabels(sorts, tags, chunks)
    ensures JobLabels(sorts, GroupTags(tags), GroupJobs(chunks, flush))
    decreases |chunks|
  {
    if chunks == [] {
    } else if |chunks| <= N_WAY_MERGE {
      GroupLabel(sorts, tags, chunks, flush);
    } else {
      GroupLabel(sorts, tags[..N_WAY_MERGE], chunks[..N_WAY_MERGE], flush);
      GroupsLabels(sorts, tags[N_WAY_MERGE..], chunks[N_WAY_MERGE..], flush);
    }
  }

  lemma TakeLabels(c: Config, s: State, a: Track, t: State)
    requires Fits(s, a) && Labelled(s, a) && TakeChunks(c, s, t)
    ensures Labelled(t, MainTrack(c, s, a))
  {
    RegroupLabels(s.sorts, a.chunks, s.chunks);
    GroupsLabels(s.sorts, TakenTags(s.chunks, a.chunks), Taken(s.chunks), s.bytes > c.bufferSize);
  }

  lemma SendMergeLabels(c: Config, s: State, a: Track, t: State)
    requires Fits(s, a) && Labelled(s, a) && SendMerge(c, s, t)
    ensures Labelled(t, MainTrack(c, s, a))
  {
  }

  lemma SameLabels(s: State, a: Track, t: State)
    requires Labelled(s, a)
    requires t.pending == s.pending && t.chunks == s.chunks && t.sorts == s.sorts
    requires t.pool.queue == s.pool.queue && t.pool.workers == s.pool.workers
    ensures Labelled(t, a)
  {
  }

  lemma QuietLabels(c: Config, s: State, a: Track, t: State)
    requires Fits(s, a) && Labelled(s, a) && MainNext(c, s, t)
    requires !SendSort(c, s, t) && !TakeChunks(c, s, t) && !SendMerge(c, s, t) && !MergeAll(c, s, t)
    ensures Labelled(t, MainTrack(c, s, a))
  {
    QuietMain(c, s, a, t);
    SameLabels(s, a, t);
  }

  lemma OutputLabels(c: Config, s: State, a: Track, t: State)
    requires Fits(s, a) && Labelled(s, a) && s.pc == Output
    requires t == s.(pc := Done, chunks := [], output := t.output)
    ensures Labelled(t, MainTrack(c, s, a))
  {
  }

  lemma MainLabels(c: Config, s: State, a: Track, t: State)
    requires Fits(s, a) && Labelled(s, a) && MainNext(c, s, t)
    ensures Labelled(t, MainTrack(c, s, a))
  {
    if SendSort(c, s, t) {
      SendSortLabels(c, s, a, t);
    } else if TakeChunks(c, s, t) {
      TakeLabels(c, s, a, t);
    } else if SendMerge(c, s, t) {
      SendMergeLabels(c, s, a, t);
    } else if MergeAll(c, s, t) {
      OutputStep(c, s, t);
      OutputLabels(c, s, a, t);
    } else {
      QuietLabels(c, s, a, t);
    }
  }

  lemma ResultLabel(sorts: seq<Merging.Lines>, tags: Tags, job: Job, chunk: Chunk)
    requires C.JobFree(job) && JobLabel(sorts, tags, job) && JobResult(job, chunk)
    ensures ChunkLabel(sorts, tags, chunk)
  {
    forall x ensures C.Occurs(chunk.lines, x) == Sum(sorts, tags, x) {
      C.ResultOccurs(job, chunk, x);
    }
  }

  ghost predicate LabelledAndFits(s: State, a: Track) {
    Fits(s, a) && HandsFree(s, a) && Labelled(s, a)
  }

  lemma FinishMoves(s: State, a: Track, t: State, w: nat, chunk: Chunk)
    requires LabelledAndFits(s, a) && C.Free(s) && FinishJob(s, t, w, chunk)
    ensures LabelledAndFits(t, WorkerTrack(s, a, w))
  {
    ResultLabel(s.sorts, a.workers[w], s.pool.workers[w].job, chunk);
  }

  lemma ReceiveMoves(s: State, a: Track, t: State, w: nat, early: bool)
    requires LabelledAndFits(s, a)
    requires P.CanReceive(s.pool, w) && t == s.(pool := P.Receive(s.pool, w, early))
    ensures LabelledAndFits(t, WorkerTrack(s, a, w))
  {
  }

  lemma QuietMoves(s: State, a: Track, t: State, w: nat, worker: P.Worker<Job>)
    requires LabelledAndFits(s, a) && w < |s.pool.workers| && !s.pool.workers[w].Running? && !worker.Running?
    requires t == s.(pool := t.pool) && t.pool.queue == s.pool.queue && t.pool.workers == s.pool.workers[w := worker]
    ensures LabelledAndFits(t, a)
  {
  }

  lemma WorkerMoves(s: State, a: Track, t: State, w: nat, early: bool)
    requires LabelledAndFits(s, a) && C.Free(s) && WorkerNext(s, t, w, early) && w < |s.pool.workers|
    ensures LabelledAndFits(t, WorkerTrack(s, a, w))
  {
    if chunk :| FinishJob(s, t, w, chunk) {
      FinishMoves(s, a, t, w, chunk);
    } else if P.CanReceive(s.pool, w) && t.pool == P.Receive(s.pool, w, early) {
      ReceiveMoves(s, a, t, w, early);
    } else if P.CanAcquire(s.pool, w) {
      QuietMoves(s, a, t, w, P.Receiving);
    } else {
      QuietMoves(s, a, t, w, P.Exited);
    }
  }

  // ---------- along a run ----------

  /** A run of the system, and where the batches are in each of its states. */
  ghost predicate IsTrackedRun(c: Config, files: seq<seq<byte>>, run: seq<State>, tracks: seq<Track>, liberal: bool) {
    && |run| == |tracks| > 0 && run[0] == Init(c, InputLines(files)) && tracks[0] == InitTrack(c)
    && forall n :: 0 <= n < |run| - 1 ==> TrackNext(c, run[n], tracks[n], run[n + 1], tracks[n + 1], liberal)
  }

  ghost predicate Tracked(s: State, a: Track) {
    && Fits(s, a) && HandsFree(s, a) && MergesPending(s) && Labelled(s, a)
    && forall i: nat :: InOnePlace(s, a, i)
  }

  lemma {:induction false} NothingCounted(tags: seq<Tags>, i: nat)
    requires forall n :: 0 <= n < |tags| ==> tags[n] == []
    ensures CountAll(tags, i) == 0
  {
    if tags == [] {
    } else {
      NothingCounted(tags[1..], i);
    }
  }

  lemma {:induction false} NothingSorts(workers: seq<P.Worker<Job>>, tags: seq<Tags>, i: nat)
    requires |workers| == |tags| && forall w :: 0 <= w < |workers| ==> !workers[w].Running?
    ensures InSorters(workers, tags, i) == 0
    decreases |workers|
  {
    if workers == [] {
    } else {
      NothingSorts(workers[1..], tags[1..], i);
    }
  }

  lemma InitTracked(c: Config, input: Merging.Lines)
    ensures Tracked(Init(c, input), InitTrack(c))
  {
    var s, a := Init(c, input), InitTrack(c);
    forall i: nat ensures InOnePlace(s, a, i) {
      NothingCounted(a.workers, i);
      NothingSorts(s.pool.workers, a.workers, i);
    }
  }

  lemma MainMergesPending(c: Config, s: State, t: State)
    requires MergesPending(s) && MainNext(c, s, t)
    ensures MergesPending(t)
  {
    if TakeChunks(c, s, t) {
      GroupsAreMerges(Taken(s.chunks), s.bytes > c.bufferSize);
    }
  }

  lemma MainTracked(c: Config, s: State, a: Track, t: State)
    requires Control(c, s) && Tracked(s, a) && MainNext(c, s, t)
    ensures Tracked(t, MainTrack(c, s, a))
  {
    MainPlaces(c, s, a, t);
    MainHandsFree(c, s, a, t);
    MainLabels(c, s, a, t);
    MainMergesPending(c, s, t);
  }

  lemma MainPlaces(c: Config, s: State, a: Track, t: State)
    requires Control(c, s) && Fits(s, a) && MergesPending(s) && MainNext(c, s, t)
    requires forall i: nat :: InOnePlace(s, a, i)
    ensures Fits(t, MainTrack(c, s, a)) && forall i: nat :: InOnePlace(t, MainTrack(c, s, a), i)
  {
    forall i: nat ensures Fits(t, MainTrack(c, s, a)) && InOnePlace(t, MainTrack(c, s, a), i) {
      MainPlace(c, s, a, t, i);
    }
    MainPlace(c, s, a, t, 0);
  }

  lemma MainHandsFree(c: Config, s: State, a: Track, t: State)
    requires Fits(s, a) && HandsFree(s, a) && MainNext(c, s, t) && Fits(t, MainTrack(c, s, a))
    ensures HandsFree(t, MainTrack(c, s, a))
  {
    assert t.pool.workers == s.pool.workers && MainTrack(c, s, a).workers == a.workers;
  }

  lemma WorkerTracked(s: State, a: Track, t: State, w: nat, early: bool)
    requires C.Free(s) && Tracked(s, a) && WorkerNext(s, t, w, early) && w < |s.pool.workers|
    ensures Tracked(t, WorkerTrack(s, a, w))
  {
    WorkerPool(s, t, w, early);
    WorkerMoves(s, a, t, w, early);
    forall i: nat ensures InOnePlace(t, WorkerTrack(s, a, w), i) {
      WorkerPlace(s, a, t, w, early, i);
    }
  }

  lemma NextTracked(c: Config, s: State, a: Track, t: State, b: Track, liberal: bool)
    requires Control(c, s) && C.Free(s) && Tracked(s, a) && TrackNext(c, s, a, t, b, liberal)
    ensures Tracked(t, b)
  {
    if MainNext(c, s, t) && b == MainTrack(c, s, a) {
      MainTracked(c, s, a, t);
    } else {
      var w: nat, early: bool :|
        (early ==> liberal) && WorkerNext(s, t, w, early) && w < |s.pool.workers| && b == WorkerTrack(s, a, w);
      WorkerTracked(s, a, t, w, early);
    }
  }

  /**
   Along every run, each batch that was sent is in exactly one job or chunk until the final merge, each
   is handed to a merge job at most once in the whole run, and only such batches are in merge jobs or
   merged chunks; and every job and chunk holds exactly the lines of its batches.
   */
  lemma {:induction false} BatchesStayApart(c: Config, files: seq<seq<byte>>, run: seq<State>, tracks: seq<Track>,
                                            liberal: bool, n: nat)
    requires ValidConfig(c) && IsTrackedRun(c, files, run, tracks, liberal) && n < |run|
    ensures Tracked(run[n], tracks[n]) && Inv(c, InputLines(files), run[n])
    decreases n
  {
    if n == 0 {
      InitTracked(c, InputLines(files));
      InitInv(c, files);
    } else {
      BatchesStayApart(c, files, run, tracks, liberal, n - 1);
      assert TrackNext(c, run[n - 1], tracks[n - 1], run[n - 1 + 1], tracks[n - 1 + 1], liberal);
      TrackedStep(c, InputLines(files), run[n - 1], tracks[n - 1], run[n], tracks[n], liberal);
    }
  }

  /** Before the final merge no batch is in two jobs or chunks, and none goes through two merge jobs. */
  lemma NoBatchInTwoJobs(c: Config, files: seq<seq<byte>>, run: seq<State>, tracks: seq<Track>,
                         liberal: bool, n: nat, i: nat)
    requires ValidConfig(c) && IsTrackedRun(c, files, run, tracks, liberal) && n < |run|
    requires run[n].pc != Done && i < |run[n].sorts|
    ensures Fits(run[n], tracks[n]) && Places(tracks[n], i) == 1
    ensures Count(tracks[n].handed, i) + Unmerged(run[n], tracks[n], i) == 1
  {
    BatchesStayApart(c, files, run, tracks, liberal, n);
    assert InOnePlace(run[n], tracks[n], i);
  }

  lemma TrackedStep(c: Config, input: Merging.Lines, s: State, a: Track, t: State, b: Track, liberal: bool)
    requires ValidConfig(c) && Inv(c, input, s) && Tracked(s, a) && TrackNext(c, s, a, t, b, liberal)
    ensures Inv(c, input, t) && Tracked(t, b)
  {
    NextTracked(c, s, a, t, b, liberal);
    NextInv(c, input, s, t, liberal);
  }

  /** A run of the system. */
  ghost predicate IsRun(c: Config, files: seq<seq<byte>>, run: seq<State>, liberal: bool) {
    && run != [] && run[0] == Init(c, InputLines(files))
    && forall n :: 0 <= n < |run| - 1 ==> Next(c, run[n], run[n + 1], liberal)
  }

  lemma RunPrefix(c: Config, files: seq<seq<byte>>, run: seq<State>, last: State, liberal: bool)
    requires run != [] && IsRun(c, files, run + [last], liberal)
    ensures IsRun(c, files, run, liberal) && Next(c, run[|run| - 1], last, liberal)
  {
    var all := run + [last];
    forall n | 0 <= n < |run| - 1 ensures Next(c, run[n], run[n + 1], liberal) {
      assert Next(c, all[n], all[n + 1], liberal);
    }
    assert Next(c, all[|run| - 1], all[|run| - 1 + 1], liberal);
  }

  lemma TrackedSnoc(c: Config, files: seq<seq<byte>>, run: seq<State>, tracks: seq<Track>,
                    t: State, b: Track, liberal: bool)
    requires IsTrackedRun(c, files, run, tracks, liberal)
    requires TrackNext(c, run[|run| - 1], tracks[|run| - 1], t, b, liberal)
    ensures IsTrackedRun(c, files, run + [t], tracks + [b], liberal)
  {
    var run', tracks' := run + [t], tracks + [b];
    forall n | 0 <= n < |run'| - 1 ensures TrackNext(c, run'[n], tracks'[n], run'[n + 1], tracks'[n + 1], liberal) {
      if n < |run| - 1 {
        assert TrackNext(c, run[n], tracks[n], run[n + 1], tracks[n + 1], liberal);
      }
    }
  }

  /** Every run can be followed. */
  lemma {:induction false} RunsCanBeTracked(c: Config, files: seq<seq<byte>>, run: seq<State>, liberal: bool)
    returns (tracks: seq<Track>)
    requires ValidConfig(c) && IsRun(c, files, run, liberal)
    ensures IsTrackedRun(c, files, run, tracks, liberal)
    decreases |run|
  {
    if |run| == 1 {
      tracks := [InitTrack(c)];
    } else {
      var front, last := run[..|run| - 1], run[|run| - 1];
      assert run == front + [last];
      RunPrefix(c, files, front, last, liberal);
      var before := RunsCanBeTracked(c, files, front, liberal);
      BatchesStayApart(c, files, front, before, liberal, |front| - 1);
      var b := TrackExists(c, front[|front| - 1], before[|front| - 1], last, liberal);
      TrackedSnoc(c, files, front, before, last, b, liberal);
      tracks := before + [b];
    }
  }

  lemma TrackExists(c: Config, s: State, a: Track, t: State, liberal: bool) returns (b: Track)
    requires Fits(s, a) && Next(c, s, t, liberal)
    ensures TrackNext(c, s, a, t, b, liberal)
  {
    if MainNext(c, s, t) {
      b := MainTrack(c, s, a);
    } else {
      var w: nat, early: bool :| (early ==> liberal) && WorkerNext(s, t, w, early);
      assert w < |s.pool.workers|;
      b := WorkerTrack(s, a, w);
    }
  }
}
