/** The batches that `sort` submits depend on the input and the options alone. */
module SortPlan {
  import opened Lines
  import opened Merging
  import opened Sequences
  import opened SortJobs
  import opened SortSystem
  import P = Pool

  /**
   The batches still to be submitted, with `lines` collected so far.  The last one is whatever has
   been collected when the input ends.
   */
  function PlanFrom(c: Config, unread: Merging.Lines, lines: Merging.Lines, bytes: nat, batches: nat)
    : seq<Merging.Lines>
    requires ValidConfig(c) && batches <= N_WAY_MERGE && (lines == [] ==> bytes <= c.bufferSize)
    decreases |unread|, if lines != [] then 20 else if bytes == c.bufferSize then 7 - batches else 0
  {
    if |lines| < c.batchSize && bytes < c.bufferSize then
      if unread == [] then [lines]
      else PlanFrom(c, unread[1..], lines + [unread[0]], bytes + |unread[0].bytes|, batches)
    else
      [lines] + PlanAfter(c, unread, bytes, batches + 1)
  }

  /** The batches to be submitted after one that did not reach the end of the input. */
  function PlanAfter(c: Config, unread: Merging.Lines, bytes: nat, batches: nat): seq<Merging.Lines>
    requires ValidConfig(c) && 1 <= batches <= N_WAY_MERGE + 1
    decreases |unread|, if bytes == c.bufferSize then 8 - batches else 8, 0
  {
    if bytes > c.bufferSize || batches > N_WAY_MERGE then PlanFrom(c, unread, [], 0, 0)
    else PlanFrom(c, unread, [], bytes, batches)
  }

  function Plan(c: Config, input: Merging.Lines): seq<Merging.Lines>
    requires ValidConfig(c)
  {
    PlanFrom(c, input, [], 0, 0)
  }

  /** What a state still has to submit. */
  function PlanOf(c: Config, s: State): seq<Merging.Lines>
    requires ValidConfig(c) && Counters(c, s)
  {
    match s.pc
    case Head => if s.exhausted then [] else PlanFrom(c, s.unread, [], s.bytes, s.batches)
    case Fill => PlanFrom(c, s.unread, s.lines, s.bytes, s.batches)
    case SubmitSort => [s.lines] + if s.exhausted then [] else PlanAfter(c, s.unread, s.bytes, s.batches + 1)
    case Decide => if s.exhausted then [] else PlanAfter(c, s.unread, s.bytes, s.batches)
    case SubmitMerges => PlanFrom(c, s.unread, [], 0, 0)
    case _ => []
  }

  ghost predicate Planned(c: Config, input: Merging.Lines, s: State)
    requires ValidConfig(c) && Counters(c, s)
  {
    Plan(c, input) == s.sorts + PlanOf(c, s)
  }

  lemma SendSortPlanned(c: Config, input: Merging.Lines, s: State, t: State)
    requires ValidConfig(c) && Control(c, s) && Counters(c, s) && Counters(c, t)
    requires SendSort(c, s, t) && Planned(c, input, s)
    ensures Planned(c, input, t)
  {
    assert PlanOf(c, s) == [s.lines] + PlanOf(c, t);
    assert s.sorts + ([s.lines] + PlanOf(c, t)) == s.sorts + [s.lines] + PlanOf(c, t);
  }

  lemma MainPlanned(c: Config, input: Merging.Lines, s: State, t: State)
    requires ValidConfig(c) && Control(c, s) && Counters(c, s) && Counters(c, t)
    requires MainNext(c, s, t) && Planned(c, input, s)
    ensures Planned(c, input, t)
  {
    if SendSort(c, s, t) {
      SendSortPlanned(c, input, s, t);
    } else {
      assert t.sorts == s.sorts;
      MainPlanOf(c, s, t);
    }
  }

  lemma FillPlanOf(c: Config, s: State, t: State)
    requires ValidConfig(c) && Control(c, s) && Counters(c, s) && Counters(c, t)
    requires MainNext(c, s, t) && s.pc == Fill
    ensures PlanOf(c, t) == PlanOf(c, s)
  {
    if ReadEnd(c, s, t) {
      assert [s.lines] + [] == [s.lines];
    }
  }

  lemma OtherPlanOf(c: Config, s: State, t: State)
    requires ValidConfig(c) && Control(c, s) && Counters(c, s) && Counters(c, t)
    requires MainNext(c, s, t) && s.pc != Fill && s.pc != SubmitSort
    ensures PlanOf(c, t) == PlanOf(c, s)
  {
  }

  lemma MainPlanOf(c: Config, s: State, t: State)
    requires ValidConfig(c) && Control(c, s) && Counters(c, s) && Counters(c, t)
    requires MainNext(c, s, t) && !SendSort(c, s, t)
    ensures PlanOf(c, t) == PlanOf(c, s)
  {
    if s.pc == Fill {
      FillPlanOf(c, s, t);
    } else {
      OtherPlanOf(c, s, t);
    }
  }

  lemma WorkerPlanned(c: Config, input: Merging.Lines, s: State, t: State, w: nat, early: bool)
    requires ValidConfig(c) && Counters(c, s) && Counters(c, t)
    requires WorkerNext(s, t, w, early) && Planned(c, input, s)
    ensures Planned(c, input, t)
  {
    WorkerPool(s, t, w, early);
    assert PlanOf(c, t) == PlanOf(c, s);
  }

  lemma NextPlanned(c: Config, input: Merging.Lines, s: State, t: State, liberal: bool)
    requires ValidConfig(c) && Control(c, s) && Counters(c, s) && Counters(c, t)
    requires Next(c, s, t, liberal) && Planned(c, input, s)
    ensures Planned(c, input, t)
  {
    if MainNext(c, s, t) {
      MainPlanned(c, input, s, t);
    } else {
      var w: nat, early: bool :| (early ==> liberal) && WorkerNext(s, t, w, early);
      WorkerPlanned(c, input, s, t, w, early);
    }
  }

  /** The batching loop on its own: `bytes` may stand at the buffer size, and then no line is read. */
  method SubmitBatches(c: Config, input: Merging.Lines) returns (sorts: seq<Merging.Lines>)
    requires ValidConfig(c)
    ensures sorts == Plan(c, input)
  {
    var unread, exhausted := input, false;
    var bytes: nat, batches: nat := 0, 0;
    sorts := [];
    while !exhausted
      invariant !exhausted ==> bytes <= c.bufferSize && batches <= N_WAY_MERGE
      invariant !exhausted ==> Plan(c, input) == sorts + PlanFrom(c, unread, [], bytes, batches)
      invariant exhausted ==> Plan(c, input) == sorts
      decreases !exhausted, |unread|, if bytes == c.bufferSize then 7 - batches else 0
    {
      var lines := [];
      ghost var todo := PlanFrom(c, unread, [], bytes, batches);
      ghost var before, start := |unread|, bytes;
      while |lines| < c.batchSize && bytes < c.bufferSize
        invariant |lines| <= c.batchSize && (lines == [] ==> bytes <= c.bufferSize)
        invariant |lines| + |unread| == before && !exhausted
        invariant todo == PlanFrom(c, unread, lines, bytes, batches)
        invariant lines == [] ==> bytes == start
        decreases |unread|
      {
        if unread == [] {
          exhausted := true;
          break;
        }
        bytes := bytes + |unread[0].bytes|;
        lines := lines + [unread[0]];
        unread := unread[1..];
      }
      assert todo == [lines] + if exhausted then [] else PlanAfter(c, unread, bytes, batches + 1);
      Associative(sorts, [lines], if exhausted then [] else PlanAfter(c, unread, bytes, batches + 1));
      sorts := sorts + [lines];
      batches := batches + 1;
      if !exhausted && (bytes > c.bufferSize || batches > N_WAY_MERGE) {
        batches := 0;
        bytes := 0;
      }
    }
  }

  // ---------- what the plan contains ----------

  function Flatten(batches: seq<Merging.Lines>): Merging.Lines {
    if batches == [] then [] else batches[0] + Flatten(batches[1..])
  }

  function BytesIn(lines: Merging.Lines): nat {
    if lines == [] then 0 else |lines[0].bytes| + BytesIn(lines[1..])
  }

  lemma FlattenCons(batch: Merging.Lines, rest: seq<Merging.Lines>)
    ensures Flatten([batch] + rest) == batch + Flatten(rest)
  {
    assert ([batch] + rest)[1..] == rest;
  }

  ghost predicate AtMost(batches: seq<Merging.Lines>, size: nat) {
    forall n :: 0 <= n < |batches| ==> |batches[n]| <= size
  }

  lemma AtMostCons(batch: Merging.Lines, rest: seq<Merging.Lines>, size: nat)
    requires |batch| <= size && AtMost(rest, size)
    ensures AtMost([batch] + rest, size)
  {
  }

  lemma CutsCons(batch: Merging.Lines, rest: seq<Merging.Lines>, unread: Merging.Lines, size: nat)
    requires |batch| <= size && AtMost(rest, size) && Flatten(rest) == [] + unread
    ensures Flatten([batch] + rest) == batch + unread && AtMost([batch] + rest, size)
  {
    assert [] + unread == unread;
    FlattenCons(batch, rest);
    AtMostCons(batch, rest, size);
  }

  /** `bytes` counts what the lines hold without their newlines. */
  lemma {:induction false} BytesOfLines(lines: Merging.Lines)
    ensures BytesIn(lines) + |lines| == |Unlines(lines)|
  {
    if lines == [] {
    } else {
      BytesOfLines(lines[1..]);
    }
  }

  /** Room for another line after the first j of the unread ones. */
  predicate RoomAfter(c: Config, unread: Merging.Lines, lines: Merging.Lines, bytes: nat, j: nat)
    requires j <= |unread|
  {
    |lines| + j < c.batchSize && bytes + BytesIn(unread[..j]) < c.bufferSize
  }

  lemma RoomStep(c: Config, unread: Merging.Lines, lines: Merging.Lines, bytes: nat, j: nat)
    requires j < |unread|
    ensures BytesIn(unread[..j + 1]) == |unread[0].bytes| + BytesIn(unread[1..][..j])
    ensures RoomAfter(c, unread, lines, bytes, j + 1)
         == RoomAfter(c, unread[1..], lines + [unread[0]], bytes + |unread[0].bytes|, j)
  {
    assert unread[..j + 1][1..] == unread[1..][..j];
  }

  /** How many lines the filling loop reads. */
  function LinesRead(c: Config, unread: Merging.Lines, lines: Merging.Lines, bytes: nat): (k: nat)
    ensures k <= |unread|
  {
    if unread == [] || |lines| >= c.batchSize || bytes >= c.bufferSize then 0
    else 1 + LinesRead(c, unread[1..], lines + [unread[0]], bytes + |unread[0].bytes|)
  }

  /** Lines are read as long as there is room. */
  lemma {:induction false} ReadsWhileRoom(c: Config, unread: Merging.Lines, lines: Merging.Lines, bytes: nat, j: nat)
    requires j <= LinesRead(c, unread, lines, bytes)
    ensures RoomAfter(c, unread, lines, bytes, j) <==>
              j < LinesRead(c, unread, lines, bytes) || (j == |unread| && RoomAfter(c, unread, lines, bytes, |unread|))
    decreases j
  {
    if j == 0 {
      assert BytesIn(unread[..0]) == 0;
    } else {
      ReadsWhileRoom(c, unread[1..], lines + [unread[0]], bytes + |unread[0].bytes|, j - 1);
      RoomStep(c, unread, lines, bytes, j - 1);
      RoomStep(c, unread, lines, bytes, |unread| - 1);
    }
  }

  /** One line more in the batch. */
  lemma ReadOne(unread: Merging.Lines, lines: Merging.Lines, k: nat)
    requires k < |unread|
    ensures lines + [unread[0]] + unread[1..][..k] == lines + unread[..k + 1]
    ensures unread[1..][k..] == unread[k + 1..]
    ensures BytesIn(unread[..k + 1]) == |unread[0].bytes| + BytesIn(unread[1..][..k])
  {
    assert unread[..k + 1][1..] == unread[1..][..k];
  }

  /**
   A batch and what is planned after it.  When the input ended before the room did, it is the last one.
   Otherwise the count of bytes and batches goes on, or starts anew when more bytes than the buffer holds
   or more than five batches have come together.
   */
  function PlanOfBatch(c: Config, batch: Merging.Lines, unread: Merging.Lines, bytes: nat, batches: nat)
    : seq<Merging.Lines>
    requires ValidConfig(c) && batches <= 5 && (batch == [] ==> bytes <= c.bufferSize)
  {
    [batch] + if |batch| < c.batchSize && bytes < c.bufferSize then []
              else if bytes > c.bufferSize || batches + 1 > 5 then PlanFrom(c, unread, [], 0, 0)
              else PlanFrom(c, unread, [], bytes, batches + 1)
  }

  /** Batches are greedy: each holds the lines that the loop reads. */
  lemma {:induction false} BatchIsGreedy(c: Config, unread: Merging.Lines, lines: Merging.Lines,
                                         bytes: nat, batches: nat)
    requires ValidConfig(c) && batches <= 5 && (lines == [] ==> bytes <= c.bufferSize)
    ensures var k := LinesRead(c, unread, lines, bytes);
            var batch, more := lines + unread[..k], bytes + BytesIn(unread[..k]);
            && (batch == [] ==> more <= c.bufferSize)
            && PlanFrom(c, unread, lines, bytes, batches) == PlanOfBatch(c, batch, unread[k..], more, batches)
    decreases |unread|
  {
    if unread == [] || |lines| >= c.batchSize || bytes >= c.bufferSize {
      assert unread[..0] == [] && lines + [] == lines && unread[0..] == unread && [lines] + [] == [lines];
    } else {
      BatchIsGreedy(c, unread[1..], lines + [unread[0]], bytes + |unread[0].bytes|, batches);
      ReadOne(unread, lines, LinesRead(c, unread[1..], lines + [unread[0]], bytes + |unread[0].bytes|));
    }
  }

  /** The batches cut the input into consecutive pieces; none is longer than the batch size. */
  lemma {:induction false} PlanCutsInput(c: Config, unread: Merging.Lines, lines: Merging.Lines,
                                         bytes: nat, batches: nat)
    requires ValidConfig(c) && batches <= N_WAY_MERGE && (lines == [] ==> bytes <= c.bufferSize)
    requires |lines| <= c.batchSize
    ensures Flatten(PlanFrom(c, unread, lines, bytes, batches)) == lines + unread
    ensures AtMost(PlanFrom(c, unread, lines, bytes, batches), c.batchSize)
    decreases |unread|, if lines != [] then 20 else if bytes == c.bufferSize then 7 - batches else 0
  {
    if |lines| < c.batchSize && bytes < c.bufferSize {
      if unread == [] {
        FlattenCons(lines, []);
        assert [lines] + [] == [lines] && lines + [] == lines;
      } else {
        PlanCutsInput(c, unread[1..], lines + [unread[0]], bytes + |unread[0].bytes|, batches);
        assert lines + [unread[0]] + unread[1..] == lines + unread;
      }
    } else {
      if bytes > c.bufferSize || batches + 1 > N_WAY_MERGE {
        PlanCutsInput(c, unread, [], 0, 0);
      } else {
        PlanCutsInput(c, unread, [], bytes, batches + 1);
      }
      CutsCons(lines, PlanAfter(c, unread, bytes, batches + 1), unread, c.batchSize);
    }
  }

  /**
   When the buffer is larger than the input (as with the default buffer), a batch is empty exactly
   when the number of lines is a multiple of the batch size.
   */
  lemma {:induction false} EmptyBatchIff(c: Config, unread: Merging.Lines, lines: Merging.Lines,
                                         bytes: nat, batches: nat)
    requires ValidConfig(c) && batches <= N_WAY_MERGE && |lines| <= c.batchSize
    requires bytes + BytesIn(unread) < c.bufferSize
    ensures [] in PlanFrom(c, unread, lines, bytes, batches) <==> (|lines| + |unread|) % c.batchSize == 0
    decreases |unread|, |lines|
  {
    if |lines| < c.batchSize {
      if unread == [] {
        SmallRemainder(|lines|, c.batchSize);
      } else {
        EmptyBatchIff(c, unread[1..], lines + [unread[0]], bytes + |unread[0].bytes|, batches);
      }
    } else {
      assert lines != [];
      if batches + 1 > N_WAY_MERGE {
        EmptyBatchIff(c, unread, [], 0, 0);
      } else {
        EmptyBatchIff(c, unread, [], bytes, batches + 1);
      }
      RemainderPlus(|unread|, c.batchSize);
    }
  }

  /** With such a buffer, lines that fit one batch are sent in one. */
  lemma {:induction false} OneBatchHoldsAll(c: Config, unread: Merging.Lines, lines: Merging.Lines,
                                            bytes: nat, batches: nat)
    requires ValidConfig(c) && batches <= N_WAY_MERGE && |lines| + |unread| <= c.batchSize
    requires bytes + BytesIn(unread) < c.bufferSize
    ensures lines + unread in PlanFrom(c, unread, lines, bytes, batches)
    decreases |unread|
  {
    if unread == [] {
      assert lines + unread == lines;
    } else {
      OneBatchHoldsAll(c, unread[1..], lines + [unread[0]], bytes + |unread[0].bytes|, batches);
      assert lines + [unread[0]] + unread[1..] == lines + unread;
    }
  }

  lemma SmallRemainder(n: nat, m: nat)
    requires n < m
    ensures n % m == n
  {
  }

  lemma RemainderPlus(n: nat, m: nat)
    requires m > 0
    ensures (m + n) % m == n % m
  {
    var d := (m + n) / m - n / m - 1;
    assert m * ((m + n) / m) + (m + n) % m == m + n && m * (n / m) + n % m == n;
    Distribute(m, (m + n) / m, n / m);
    assert m * d == n % m - (m + n) % m;
    MultipleBelow(m, d);
  }

  lemma Distribute(m: int, a: int, b: int)
    ensures m * (a - b - 1) == m * a - m * b - m
  {
  }

  lemma MultipleBelow(m: int, d: int)
    requires m > 0 && -m < m * d < m
    ensures d == 0
  {
    if d >= 1 {
      MultipleAtLeast(m, d);
    } else if d <= -1 {
      MultipleAtLeast(m, -d);
    }
  }

  lemma MultipleAtLeast(m: int, d: int)
    requires m > 0 && d >= 1
    ensures m * d >= m && m * -d == -(m * d)
  {
    assert m * d - m == m * (d - 1);
  }
}
