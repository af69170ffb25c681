/**
 The thread pool as a step system: a bounded channel, worker threads that share its receiving end
 behind a mutex, and a sender that is dropped by `finish`.

 The guard of that mutex is a temporary of the `while let` scrutinee, so as written a worker keeps
 the lock while its job runs.  A step with `early` set also lets it go right after `recv`; runs in
 which no step is early are the runs of the pool as written.
 */
module Pool {
  import opened Bytes

  datatype Worker<+J> = Waiting | Receiving | Running(job: J) | Exited

  /** The last three fields record history: jobs sent, taken from the channel, and run. */
  datatype Pool<+J> = Pool(
    size: nat,
    queue: seq<J>,
    workers: seq<Worker<J>>,
    lock: Option<nat>,
    open: bool,
    submitted: seq<J>,
    received: seq<J>,
    completed: seq<J>)

  function New<J>(size: nat): Pool<J> {
    Pool(size, [], seq(size, _ => Waiting), None, true, [], [], [])
  }

  // ---------- the steps ----------

  /** `send` blocks while the channel is full. */
  predicate CanSubmit<J>(p: Pool<J>) {
    p.open && |p.queue| < p.size
  }

  function Submit<J>(p: Pool<J>, job: J): Pool<J> {
    p.(queue := p.queue + [job], submitted := p.submitted + [job])
  }

  /** `finish` drops the sender. */
  function Close<J>(p: Pool<J>): Pool<J> {
    p.(open := false)
  }

  /** Every `join` of `finish` has returned. */
  ghost predicate Joined<J>(p: Pool<J>) {
    forall w :: 0 <= w < |p.workers| ==> p.workers[w].Exited?
  }

  predicate CanAcquire<J>(p: Pool<J>, w: nat) {
    w < |p.workers| && p.workers[w].Waiting? && p.lock.None?
  }

  function Acquire<J>(p: Pool<J>, w: nat): Pool<J>
    requires CanAcquire(p, w)
  {
    p.(workers := p.workers[w := Receiving], lock := Some(w))
  }

  predicate CanReceive<J>(p: Pool<J>, w: nat) {
    w < |p.workers| && p.workers[w].Receiving? && p.queue != []
  }

  function Receive<J>(p: Pool<J>, w: nat, early: bool): Pool<J>
    requires CanReceive(p, w)
  {
    p.(workers := p.workers[w := Running(p.queue[0])],
       queue := p.queue[1..],
       received := p.received + [p.queue[0]],
       lock := if early then None else Some(w))
  }

  predicate CanComplete<J>(p: Pool<J>, w: nat) {
    w < |p.workers| && p.workers[w].Running?
  }

  function Complete<J>(p: Pool<J>, w: nat): Pool<J>
    requires CanComplete(p, w)
  {
    p.(workers := p.workers[w := Waiting],
       completed := p.completed + [p.workers[w].job],
       lock := if p.lock == Some(w) then None else p.lock)
  }

  /** `recv` fails once the channel is empty and the sender is gone. */
  predicate CanExit<J>(p: Pool<J>, w: nat) {
    w < |p.workers| && p.workers[w].Receiving? && p.queue == [] && !p.open
  }

  function Exit<J>(p: Pool<J>, w: nat): Pool<J>
    requires CanExit(p, w)
  {
    p.(workers := p.workers[w := Exited], lock := None)
  }

  // ---------- running jobs ----------

  /** How many workers are running this job. */
  ghost function RunningCount<J>(workers: seq<Worker<J>>, job: J): nat {
    if workers == [] then 0 else Runs(workers[0], job) + RunningCount(workers[1..], job)
  }

  ghost function Runs<J>(worker: Worker<J>, job: J): nat {
    if worker.Running? && worker.job == job then 1 else 0
  }

  /** Changing the state of one worker changes only its own contribution. */
  lemma {:induction false} CountUpdate<J>(workers: seq<Worker<J>>, w: nat, changed: Worker<J>, job: J)
    requires w < |workers|
    ensures RunningCount(workers[w := changed], job) + Runs(workers[w], job)
         == RunningCount(workers, job) + Runs(changed, job)
  {
    if w > 0 {
      assert workers[w := changed][1..] == workers[1..][w - 1 := changed];
      CountUpdate(workers[1..], w - 1, changed, job);
    } else {
      assert workers[w := changed][1..] == workers[1..];
    }
  }

  lemma {:induction false} NothingRuns<J>(workers: seq<Worker<J>>, job: J)
    requires forall w :: 0 <= w < |workers| ==> !workers[w].Running?
    ensures RunningCount(workers, job) == 0
  {
    if workers == [] {
    } else {
      NothingRuns(workers[1..], job);
    }
  }

  // ---------- the invariant ----------

  /** The lock, the channel and the states of the workers agree. */
  ghost predicate Control<J(!new)>(p: Pool<J>) {
    && |p.workers| == p.size >= 1
    && |p.queue| <= p.size
    && (p.lock.Some? ==> p.lock.value < p.size
                         && (p.workers[p.lock.value].Receiving? || p.workers[p.lock.value].Running?))
    && (forall w :: 0 <= w < p.size && p.workers[w].Receiving? ==> p.lock == Some(w))
    && (forall w :: 0 <= w < p.size && p.workers[w].Exited? ==> !p.open && p.queue == [])
  }

  /** The channel is first in, first out, and what left it is running or has been run, once. */
  ghost predicate History<J(!new)>(p: Pool<J>) {
    && p.submitted == p.received + p.queue
    && (forall job :: multiset(p.received)[job] == multiset(p.completed)[job] + RunningCount(p.workers, job))
  }

  ghost predicate Inv<J(!new)>(p: Pool<J>) {
    Control(p) && History(p)
  }

  /** What the long-lived guard adds: a running worker holds the lock, and jobs finish in order. */
  ghost predicate Serial<J(!new)>(p: Pool<J>) {
    && (forall w :: 0 <= w < |p.workers| && p.workers[w].Running? ==> p.lock == Some(w))
    && p.received == p.completed + HeldJob(p)
  }

  /** The job of the worker that holds the lock. */
  function HeldJob<J>(p: Pool<J>): seq<J> {
    if p.lock.Some? && p.lock.value < |p.workers| && p.workers[p.lock.value].Running?
    then [p.workers[p.lock.value].job] else []
  }

  lemma NewInv<J(!new)>(size: nat)
    requires size >= 1
    ensures Inv(New<J>(size)) && Serial(New<J>(size))
  {
    forall job: J {
      NothingRuns(New<J>(size).workers, job);
    }
  }

  lemma SubmitInv<J(!new)>(p: Pool<J>, job: J)
    requires Inv(p) && CanSubmit(p)
    ensures Inv(Submit(p, job))
    ensures Serial(p) ==> Serial(Submit(p, job))
  {
  }

  lemma CloseInv<J(!new)>(p: Pool<J>)
    requires Inv(p)
    ensures Inv(Close(p))
    ensures Serial(p) ==> Serial(Close(p))
  {
  }

  /** A step of worker w. */
  ghost predicate WorkerNext<J(!new)>(p: Pool<J>, q: Pool<J>, w: nat, early: bool) {
    || (CanAcquire(p, w) && q == Acquire(p, w))
    || (CanReceive(p, w) && q == Receive(p, w, early))
    || (CanComplete(p, w) && q == Complete(p, w))
    || (CanExit(p, w) && q == Exit(p, w))
  }

  lemma WorkerControl<J(!new)>(p: Pool<J>, q: Pool<J>, w: nat, early: bool)
    requires Control(p) && WorkerNext(p, q, w, early)
    ensures Control(q)
  {
  }

  lemma WorkerOrder<J(!new)>(p: Pool<J>, q: Pool<J>, w: nat, early: bool)
    requires p.submitted == p.received + p.queue && WorkerNext(p, q, w, early)
    ensures q.submitted == q.received + q.queue
  {
    if CanReceive(p, w) && q == Receive(p, w, early) {
      assert p.queue == [p.queue[0]] + q.queue;
    }
  }

  lemma WorkerHistory<J(!new)>(p: Pool<J>, q: Pool<J>, w: nat, early: bool)
    requires History(p) && WorkerNext(p, q, w, early)
    ensures History(q)
  {
    WorkerOrder(p, q, w, early);
    forall job: J
      ensures multiset(q.received)[job] == multiset(q.completed)[job] + RunningCount(q.workers, job)
    {
      WorkerCounts(p, q, w, early, job);
    }
  }

  lemma WorkerCounts<J(!new)>(p: Pool<J>, q: Pool<J>, w: nat, early: bool, job: J)
    requires WorkerNext(p, q, w, early)
    ensures multiset(q.received)[job] + multiset(p.completed)[job] + RunningCount(p.workers, job)
         == multiset(p.received)[job] + multiset(q.completed)[job] + RunningCount(q.workers, job)
  {
    if CanReceive(p, w) && q == Receive(p, w, early) {
      CountUpdate(p.workers, w, Running(p.queue[0]), job);
    } else if CanComplete(p, w) && q == Complete(p, w) {
      CountUpdate(p.workers, w, Waiting, job);
    } else if CanAcquire(p, w) && q == Acquire(p, w) {
      CountUpdate(p.workers, w, Receiving, job);
    } else {
      CountUpdate(p.workers, w, Exited, job);
    }
  }

  lemma WorkerSerial<J(!new)>(p: Pool<J>, q: Pool<J>, w: nat)
    requires Control(p) && Serial(p) && WorkerNext(p, q, w, false)
    ensures Serial(q)
  {
    if CanReceive(p, w) && q == Receive(p, w, false) {
      assert HeldJob(p) == [] && p.completed + [] == p.completed;
      assert HeldJob(q) == [p.queue[0]];
    } else if CanComplete(p, w) && q == Complete(p, w) {
      assert HeldJob(p) == [p.workers[w].job] && HeldJob(q) == [];
      assert q.completed + [] == q.completed;
    }
  }

  /** When `finish` returns, nothing is queued, nothing runs, and every job sent has been run once. */
  lemma JoinedMeansDone<J(!new)>(p: Pool<J>)
    requires Inv(p) && Joined(p)
    ensures p.queue == [] && forall w :: 0 <= w < |p.workers| ==> !p.workers[w].Running?
    ensures multiset(p.completed) == multiset(p.submitted)
    ensures Serial(p) ==> p.completed == p.submitted
  {
    assert p.workers[0].Exited?;
    forall job: J ensures multiset(p.completed)[job] == multiset(p.submitted)[job] {
      NothingRuns(p.workers, job);
    }
  }

  // ---------- progress ----------

  function WorkerWeight<J>(worker: Worker<J>): nat {
    match worker
    case Waiting => 2
    case Receiving => 1
    case Running(_) => 3
    case Exited => 0
  }

  function WorkersWeight<J>(workers: seq<Worker<J>>): nat {
    if workers == [] then 0 else WorkerWeight(workers[0]) + WorkersWeight(workers[1..])
  }

  /** The work that the workers still have to do. */
  function Rank<J>(p: Pool<J>): nat {
    3 * |p.queue| + WorkersWeight(p.workers)
  }

  lemma {:induction false} WeightUpdate<J>(workers: seq<Worker<J>>, w: nat, changed: Worker<J>)
    requires w < |workers|
    ensures WorkersWeight(workers[w := changed]) + WorkerWeight(workers[w])
         == WorkersWeight(workers) + WorkerWeight(changed)
  {
    if w > 0 {
      assert workers[w := changed][1..] == workers[1..][w - 1 := changed];
      WeightUpdate(workers[1..], w - 1, changed);
    } else {
      assert workers[w := changed][1..] == workers[1..];
    }
  }

  /** Each step of a worker uses up some of that work. */
  lemma WorkerStepsShrink<J>(p: Pool<J>, w: nat, early: bool)
    ensures CanAcquire(p, w) ==> Rank(Acquire(p, w)) < Rank(p)
    ensures CanReceive(p, w) ==> Rank(Receive(p, w, early)) < Rank(p)
    ensures CanComplete(p, w) ==> Rank(Complete(p, w)) < Rank(p)
    ensures CanExit(p, w) ==> Rank(Exit(p, w)) < Rank(p)
  {
    if w < |p.workers| {
      WeightUpdate(p.workers, w, Receiving);
      if p.queue != [] {
        WeightUpdate(p.workers, w, Running(p.queue[0]));
      }
      WeightUpdate(p.workers, w, Waiting);
      WeightUpdate(p.workers, w, Exited);
    }
  }

  predicate CanStep<J>(p: Pool<J>, w: nat) {
    CanAcquire(p, w) || CanReceive(p, w) || CanComplete(p, w) || CanExit(p, w)
  }

  /** The workers are never stuck: while there is a queued job, or once the sender is gone, one of them can step. */
  lemma WorkersProgress<J(!new)>(p: Pool<J>) returns (w: nat)
    requires Inv(p) && (p.queue != [] || (!p.open && !Joined(p)))
    ensures CanStep(p, w)
  {
    if p.lock.Some? {
      w := p.lock.value;
    } else if p.queue != [] {
      w := 0;
      assert !p.workers[0].Exited?;
    } else {
      w :| 0 <= w < |p.workers| && !p.workers[w].Exited?;
    }
  }

  // ---------- a client that submits a list of jobs and then finishes ----------

  datatype Client<+J> = Client(todo: seq<J>, pool: Pool<J>)

  ghost predicate ClientNext<J(!new)>(c: Client<J>, d: Client<J>, early: bool) {
    || (c.todo != [] && CanSubmit(c.pool) && d == Client(c.todo[1..], Submit(c.pool, c.todo[0])))
    || (c.todo == [] && c.pool.open && d == Client([], Close(c.pool)))
    || (exists w: nat :: WorkerNext(c.pool, d.pool, w, early) && d.todo == c.todo)
  }

  lemma WorkerNextInv<J(!new)>(p: Pool<J>, q: Pool<J>, w: nat, early: bool)
    requires Inv(p) && WorkerNext(p, q, w, early)
    ensures Inv(q) && Rank(q) < Rank(p) && q.submitted == p.submitted && q.open == p.open && q.size == p.size
    ensures Serial(p) && !early ==> Serial(q)
  {
    WorkerControl(p, q, w, early);
    WorkerHistory(p, q, w, early);
    WorkerStepsShrink(p, w, early);
    if Serial(p) && !early {
      WorkerSerial(p, q, w);
    }
  }

  /** A run: a start, steps, and which of the steps release the lock early. */
  ghost predicate IsRun<J(!new)>(jobs: seq<J>, size: nat, run: seq<Client<J>>, early: seq<bool>) {
    && |run| == |early| + 1
    && run[0] == Client(jobs, New(size))
    && forall n :: 0 <= n < |early| ==> ClientNext(run[n], run[n + 1], early[n])
  }

  /** Jobs leave the channel in the order of submission, and the channel is bounded. */
  ghost predicate ClientInv<J(!new)>(jobs: seq<J>, size: nat, c: Client<J>) {
    && Inv(c.pool) && c.pool.size == size
    && jobs == c.pool.received + c.pool.queue + c.todo
    && (!c.pool.open ==> c.todo == [])
  }

  /** A step keeps the invariant and uses up the work that the client and the workers have left. */
  lemma ClientStep<J(!new)>(jobs: seq<J>, size: nat, c: Client<J>, d: Client<J>, early: bool)
    requires ClientInv(jobs, size, c) && ClientNext(c, d, early)
    ensures ClientInv(jobs, size, d) && ClientRank(d) < ClientRank(c)
    ensures Serial(c.pool) && !early ==> Serial(d.pool)
  {
    if w: nat :| WorkerNext(c.pool, d.pool, w, early) && d.todo == c.todo {
      WorkerNextInv(c.pool, d.pool, w, early);
    } else if c.todo != [] {
      SubmitInv(c.pool, c.todo[0]);
      assert c.todo == [c.todo[0]] + d.todo;
    } else {
      CloseInv(c.pool);
    }
  }

  function ClientRank<J>(c: Client<J>): nat {
    4 * |c.todo| + Rank(c.pool) + if c.pool.open then 1 else 0
  }

  /**
   Along every run, whatever the workers and the lock do: jobs leave the channel in the order they
   were submitted, each job taken out is running or has been run, once, the channel never holds
   more than `size` jobs, and the run is no longer than the work there was at the start.
   */
  lemma {:induction false} RunInvariant<J(!new)>(jobs: seq<J>, size: nat, run: seq<Client<J>>, early: seq<bool>, n: nat)
    requires size >= 1 && IsRun(jobs, size, run, early) && n <= |early|
    ensures ClientInv(jobs, size, run[n])
    ensures n + ClientRank(run[n]) <= ClientRank(run[0])
    ensures (forall m :: 0 <= m < n ==> !early[m]) ==> Serial(run[n].pool)
    decreases n
  {
    if n == 0 {
      NewInv<J>(size);
    } else {
      RunInvariant(jobs, size, run, early, n - 1);
      assert ClientNext(run[n - 1], run[n - 1 + 1], early[n - 1]);
      ClientStep(jobs, size, run[n - 1], run[n], early[n - 1]);
    }
  }

  /** No run is stuck before `finish` has returned; the next step need not release the lock early. */
  lemma NoDeadlock<J(!new)>(jobs: seq<J>, size: nat, c: Client<J>) returns (d: Client<J>)
    requires ClientInv(jobs, size, c)
    requires !(c.todo == [] && !c.pool.open && Joined(c.pool))
    ensures ClientNext(c, d, false)
  {
    if c.todo != [] && CanSubmit(c.pool) {
      d := Client(c.todo[1..], Submit(c.pool, c.todo[0]));
    } else if c.todo == [] && c.pool.open {
      d := Client([], Close(c.pool));
    } else {
      var w := WorkersProgress(c.pool);
      var q := if CanAcquire(c.pool, w) then Acquire(c.pool, w)
               else if CanReceive(c.pool, w) then Receive(c.pool, w, false)
               else if CanComplete(c.pool, w) then Complete(c.pool, w)
               else Exit(c.pool, w);
      d := Client(c.todo, q);
      assert WorkerNext(c.pool, d.pool, w, false);
    }
  }

  /**
   When `finish` has returned, every job was run exactly once; with the lock held as written they
   were run in the order of submission, which is what `Executor::Synchronous` does.
   */
  lemma FinishedRun<J(!new)>(jobs: seq<J>, size: nat, run: seq<Client<J>>, early: seq<bool>)
    requires size >= 1 && IsRun(jobs, size, run, early)
    requires var c := run[|early|]; !c.pool.open && Joined(c.pool)
    ensures run[|early|].pool.queue == []
    ensures multiset(run[|early|].pool.completed) == multiset(jobs)
    ensures (forall n :: 0 <= n < |early| ==> !early[n]) ==> run[|early|].pool.completed == jobs
  {
    RunInvariant(jobs, size, run, early, |early|);
    JoinedMeansDone(run[|early|].pool);
  }
}
