/**
 The merge loop shared by `run_merge`, `run_merge_flush` and the final merge of `sort`, on the
 values of the chunks, and what it produces.

 A heap is a sequence of chunks whose order carries no meaning.  `BinaryHeap` is taken by
 contract: its top is a chunk with a least head.  The `Ord` of the source calls a chunk without a
 head equal to every other chunk, so as long as such a chunk is in the heap the top may be any
 chunk.  Statements about all runs are about heaps that never hold such a chunk, or whose order does
 not matter; statements that some run exists say so for some choice that this contract leaves open.
 */
module Merging {
  import opened Bytes
  import opened Sequences

  type Lines = seq<Line>

  // ---------- heaps ----------

  function Remove<T>(heap: seq<T>, i: nat): seq<T>
    requires i < |heap|
  {
    heap[..i] + heap[i + 1..]
  }

  lemma RemoveCons<T>(s: seq<T>, i: nat)
    requires i < |s|
    ensures i == 0 ==> Remove(s, i) == s[1..]
    ensures i > 0 ==> Remove(s, i) == [s[0]] + Remove(s[1..], i - 1)
  {
    if i == 0 {
      assert s[..0] + s[1..] == s[1..];
    } else {
      assert s[..i] == [s[0]] + s[1..][..i - 1];
      assert s[i + 1..] == s[1..][i..];
    }
  }

  /** All lines in a heap. */
  function Union(heap: seq<Lines>): multiset<Line> {
    if heap == [] then multiset{} else multiset(heap[0]) + Union(heap[1..])
  }

  /** Lines plus chunks: the measure of the merge loops. */
  function Weight(heap: seq<Lines>): nat {
    if heap == [] then 0 else |heap[0]| + 1 + Weight(heap[1..])
  }

  lemma {:induction false} UnionConcat(a: seq<Lines>, b: seq<Lines>)
    ensures Union(a + b) == Union(a) + Union(b)
    ensures Weight(a + b) == Weight(a) + Weight(b)
  {
    if a == [] {
      assert a + b == b;
    } else {
      assert (a + b)[1..] == a[1..] + b;
      UnionConcat(a[1..], b);
    }
  }

  lemma UnionSingle(chunk: Lines)
    ensures Union([chunk]) == multiset(chunk) && Weight([chunk]) == |chunk| + 1
  {
    assert [chunk][1..] == [];
  }

  lemma UnionRemove(heap: seq<Lines>, i: nat)
    requires i < |heap|
    ensures Union(heap) == Union(Remove(heap, i)) + multiset(heap[i])
    ensures Weight(heap) == Weight(Remove(heap, i)) + |heap[i]| + 1
  {
    var rest := heap[i + 1..];
    assert heap == heap[..i] + ([heap[i]] + rest);
    assert ([heap[i]] + rest)[1..] == rest;
    UnionConcat(heap[..i], [heap[i]] + rest);
    UnionConcat(heap[..i], rest);
  }

  lemma {:induction false} UnionMember(heap: seq<Lines>, y: Line)
    ensures y in Union(heap) <==> exists i :: 0 <= i < |heap| && y in heap[i]
  {
    if heap == [] {
    } else {
      UnionMember(heap[1..], y);
      if i :| 0 <= i < |heap| && y in heap[i] {
        assert i == 0 || (y in heap[1..][i - 1]);
      }
      if i :| 0 <= i < |heap[1..]| && y in heap[1..][i] {
        assert y in heap[i + 1];
      }
    }
  }

  // ---------- one iteration of a merge loop ----------

  predicate NoEmptyChunk(heap: seq<Lines>) {
    forall i :: 0 <= i < |heap| ==> heap[i] != []
  }

  /** x is at or before the head of every chunk. */
  predicate BelowHeads(x: Line, heap: seq<Lines>)
    requires NoEmptyChunk(heap)
  {
    forall k :: 0 <= k < |heap| ==> Leq(x, heap[k][0])
  }

  /** The heap may show or pop the chunk at i: a choice left open by its contract. */
  predicate CanTop(heap: seq<Lines>, i: nat) {
    i < |heap| && (NoEmptyChunk(heap) ==> BelowHeads(heap[i][0], heap))
  }

  /** The number of lines `drain_until` emits: the first one, and then all up to the limit. */
  function CutAt(chunk: Lines, limit: Line): (k: nat)
    requires chunk != []
    ensures 1 <= k <= |chunk|
    ensures forall j :: 1 <= j < k ==> Leq(chunk[j], limit)
    ensures k < |chunk| ==> !Leq(chunk[k], limit)
  {
    if |chunk| == 1 || !Leq(chunk[1], limit) then 1 else 1 + CutAt(chunk[1..], limit)
  }

  /** The number of lines emitted from a popped chunk when the heap then shows `top`. */
  function Emitted(chunk: Lines, top: Lines): (k: nat)
    ensures k <= |chunk| && (chunk != [] ==> k >= 1)
  {
    if top == [] || chunk == [] then |chunk| else CutAt(chunk, top[0])
  }

  /** Popping the chunk at i and emitting its first k lines is one iteration on this heap. */
  ghost predicate MergeStep(heap: seq<Lines>, i: nat, k: nat) {
    && CanTop(heap, i)
    && var rest := Remove(heap, i);
       if rest == [] then k == |heap[i]|
       else exists j: nat :: CanTop(rest, j) && k == Emitted(heap[i], rest[j])
  }

  /** The heap after that iteration: what is left of the chunk goes back unless it is used up. */
  function After(heap: seq<Lines>, i: nat, k: nat): seq<Lines>
    requires i < |heap| && k <= |heap[i]|
  {
    if k == |heap[i]| then Remove(heap, i) else Remove(heap, i) + [heap[i][k..]]
  }

  /** An iteration makes lines plus chunks smaller, and only moves lines from the heap to the output. */
  lemma AfterShrinks(heap: seq<Lines>, i: nat, k: nat)
    requires i < |heap| && k <= |heap[i]| && (heap[i] != [] ==> k >= 1)
    ensures Weight(After(heap, i, k)) < Weight(heap)
    ensures Union(heap) == multiset(heap[i][..k]) + Union(After(heap, i, k))
  {
    UnionRemove(heap, i);
    if k == |heap[i]| {
      assert heap[i][..k] == heap[i];
    } else {
      PushedBack(Remove(heap, i), heap[i], k);
    }
  }

  lemma PushedBack(rest: seq<Lines>, chunk: Lines, k: nat)
    requires k <= |chunk|
    ensures Weight(rest + [chunk[k..]]) == Weight(rest) + |chunk| - k + 1
    ensures multiset(chunk[..k]) + Union(rest + [chunk[k..]]) == Union(rest) + multiset(chunk)
  {
    assert chunk == chunk[..k] + chunk[k..];
    UnionConcat(rest, [chunk[k..]]);
    UnionSingle(chunk[k..]);
  }

  // ---------- whole runs ----------

  /** What the scheduler of the heap decides in one iteration. */
  datatype Choice = Choice(i: nat, k: nat)

  /** These choices drive a merge loop from this heap to its end. */
  ghost predicate Drives(heap: seq<Lines>, choices: seq<Choice>)
    decreases |choices|
  {
    if choices == [] then heap == []
    else
      && MergeStep(heap, choices[0].i, choices[0].k)
      && Drives(After(heap, choices[0].i, choices[0].k), choices[1..])
  }

  /** The lines emitted by that run. */
  ghost function Emission(heap: seq<Lines>, choices: seq<Choice>): Lines
    requires Drives(heap, choices)
    decreases |choices|
  {
    if choices == [] then [] else
      var Choice(i, k) := choices[0];
      heap[i][..k] + Emission(After(heap, i, k), choices[1..])
  }

  /** Some run of the merge loop on this heap emits `out`. */
  ghost predicate MergeRun(heap: seq<Lines>, out: Lines) {
    exists choices :: Drives(heap, choices) && out == Emission(heap, choices)
  }

  lemma EmissionUnfold(heap: seq<Lines>, choices: seq<Choice>)
    requires Drives(heap, choices) && choices != []
    ensures var Choice(i, k) := choices[0];
            && MergeStep(heap, i, k) && Drives(After(heap, i, k), choices[1..])
            && Emission(heap, choices) == heap[i][..k] + Emission(After(heap, i, k), choices[1..])
  {
  }

  lemma DrivesCons(heap: seq<Lines>, i: nat, k: nat, choices: seq<Choice>)
    requires MergeStep(heap, i, k) && Drives(After(heap, i, k), choices)
    ensures Drives(heap, [Choice(i, k)] + choices)
    ensures Emission(heap, [Choice(i, k)] + choices) == heap[i][..k] + Emission(After(heap, i, k), choices)
  {
    assert ([Choice(i, k)] + choices)[1..] == choices;
  }

  /** Putting one iteration in front of a run. */
  lemma MergeRunStep(heap: seq<Lines>, i: nat, k: nat, rest: Lines)
    requires MergeStep(heap, i, k) && MergeRun(After(heap, i, k), rest)
    ensures MergeRun(heap, heap[i][..k] + rest)
  {
    var after := After(heap, i, k);
    var choices :| Drives(after, choices) && rest == Emission(after, choices);
    DrivesCons(heap, i, k, choices);
    MergeRunBy(heap, [Choice(i, k)] + choices, heap[i][..k] + rest);
  }

  lemma MergeRunBy(heap: seq<Lines>, choices: seq<Choice>, out: Lines)
    requires Drives(heap, choices) && out == Emission(heap, choices)
    ensures MergeRun(heap, out)
  {
  }

  lemma MergeRunEmpty()
    ensures MergeRun([], [])
  {
    assert Drives([], []);
  }

  /** The heap always has a possible top. */
  lemma {:induction false} TopExists(heap: seq<Lines>) returns (i: nat)
    requires heap != []
    ensures CanTop(heap, i)
  {
    i := 0;
    if NoEmptyChunk(heap) {
      LeqReflexive(heap[0][0]);
      for n := 1 to |heap|
        invariant i < n <= |heap|
        invariant forall k :: 0 <= k < n ==> Leq(heap[i][0], heap[k][0])
      {
        LeqTotal(heap[i][0], heap[n][0]);
        LeqReflexive(heap[n][0]);
        if !Leq(heap[i][0], heap[n][0]) {
          forall k | 0 <= k < n ensures Leq(heap[n][0], heap[k][0]) {
            LeqTransitive(heap[n][0], heap[i][0], heap[k][0]);
          }
          i := n;
        }
      }
    }
  }

  /** No heap is stuck: the merge loop produces something from every heap. */
  lemma {:induction false} MergeTotal(heap: seq<Lines>) returns (out: Lines)
    ensures MergeRun(heap, out)
    decreases Weight(heap)
  {
    if heap == [] {
      MergeRunEmpty();
      out := [];
    } else {
      var i := TopExists(heap);
      var rest := Remove(heap, i);
      var k := |heap[i]|;
      if rest != [] {
        var j := TopExists(rest);
        k := Emitted(heap[i], rest[j]);
      }
      assert MergeStep(heap, i, k);
      AfterShrinks(heap, i, k);
      var tail := MergeTotal(After(heap, i, k));
      MergeRunStep(heap, i, k, tail);
      out := heap[i][..k] + tail;
    }
  }

  lemma {:induction false} DriveConserves(heap: seq<Lines>, choices: seq<Choice>)
    requires Drives(heap, choices)
    ensures multiset(Emission(heap, choices)) == Union(heap)
    decreases |choices|
  {
    if choices == [] {
    } else {
      var Choice(i, k) := choices[0];
      AfterShrinks(heap, i, k);
      DriveConserves(After(heap, i, k), choices[1..]);
    }
  }

  /** Merging loses and invents no line, whatever the chunks are. */
  lemma MergeConserves(heap: seq<Lines>, out: Lines)
    requires MergeRun(heap, out)
    ensures multiset(out) == Union(heap)
  {
    var choices :| Drives(heap, choices) && out == Emission(heap, choices);
    DriveConserves(heap, choices);
  }

  // ---------- what a loop has done so far ----------

  /** Having emitted `done`, whatever the loop emits from `heap` completes a run on `input`. */
  ghost predicate Continues(input: seq<Lines>, done: Lines, heap: seq<Lines>) {
    forall tail :: MergeRun(heap, tail) ==> MergeRun(input, done + tail)
  }

  lemma ContinuesStart(input: seq<Lines>)
    ensures Continues(input, [], input)
  {
    forall tail | MergeRun(input, tail) ensures MergeRun(input, [] + tail) {
      assert [] + tail == tail;
    }
  }

  lemma ContinuesStep(input: seq<Lines>, done: Lines, heap: seq<Lines>, i: nat, k: nat)
    requires Continues(input, done, heap) && MergeStep(heap, i, k)
    ensures Continues(input, done + heap[i][..k], After(heap, i, k))
  {
    forall tail | MergeRun(After(heap, i, k), tail)
      ensures MergeRun(input, done + heap[i][..k] + tail)
    {
      MergeRunStep(heap, i, k, tail);
      Associative(done, heap[i][..k], tail);
    }
  }

  lemma ContinuesEnd(input: seq<Lines>, done: Lines)
    requires Continues(input, done, [])
    ensures MergeRun(input, done)
  {
    MergeRunEmpty();
    assert done + [] == done;
  }

  // ---------- sorted chunks ----------

  ghost predicate AllSorted(heap: seq<Lines>) {
    forall i :: 0 <= i < |heap| ==> Sorted(heap[i])
  }

  lemma BelowHeadsBelowAll(x: Line, heap: seq<Lines>)
    requires NoEmptyChunk(heap) && AllSorted(heap) && BelowHeads(x, heap)
    ensures Below(x, Union(heap))
  {
    forall y | y in Union(heap) ensures Leq(x, y) {
      UnionMember(heap, y);
      var i :| 0 <= i < |heap| && y in heap[i];
      SortedHeadBelow(heap[i]);
      assert y in multiset(heap[i]);
      LeqTransitive(x, heap[i][0], y);
    }
  }

  /** What an iteration emits is at or before the heads of the other chunks. */
  lemma EmittedBelowHeads(heap: seq<Lines>, i: nat, k: nat, t: nat)
    requires NoEmptyChunk(heap) && MergeStep(heap, i, k) && t < k
    ensures NoEmptyChunk(Remove(heap, i)) && BelowHeads(heap[i][t], Remove(heap, i))
  {
    var rest := Remove(heap, i);
    var x := heap[i][t];
    if rest != [] {
      var j: nat :| CanTop(rest, j) && k == Emitted(heap[i], rest[j]);
      assert rest[j] == heap[if j < i then j else j + 1];
      assert Leq(x, rest[j][0]);
      forall n | 0 <= n < |rest| ensures Leq(x, rest[n][0]) {
        LeqTransitive(x, rest[j][0], rest[n][0]);
      }
    }
  }

  /** ... and at or before what is left of its own chunk. */
  lemma EmittedBelowLeft(chunk: Lines, k: nat, t: nat)
    requires Sorted(chunk) && t < k <= |chunk|
    ensures Below(chunk[t], multiset(chunk[k..]))
  {
    var left := chunk[k..];
    forall y | y in multiset(left) ensures Leq(chunk[t], y) {
      var n :| 0 <= n < |left| && left[n] == y;
      assert y == chunk[k + n];
    }
  }

  lemma BelowBoth(x: Line, a: multiset<Line>, b: multiset<Line>)
    requires Below(x, a) && Below(x, b)
    ensures Below(x, a + b)
  {
  }

  /** Every line a single iteration emits is at or before every line left in the heap. */
  lemma EmittedBelowRest(heap: seq<Lines>, i: nat, k: nat, x: Line)
    requires NoEmptyChunk(heap) && AllSorted(heap) && MergeStep(heap, i, k)
    requires x in heap[i][..k]
    ensures Below(x, Union(After(heap, i, k)))
  {
    var t :| 0 <= t < k && x == heap[i][t];
    EmittedBelowHeads(heap, i, k, t);
    RemoveKeepsGood(heap, i);
    BelowHeadsBelowAll(x, Remove(heap, i));
    if k < |heap[i]| {
      var left := heap[i][k..];
      EmittedBelowLeft(heap[i], k, t);
      UnionConcat(Remove(heap, i), [left]);
      UnionSingle(left);
      BelowBoth(x, Union(Remove(heap, i)), multiset(left));
    }
  }

  lemma RemoveKeepsGood(heap: seq<Lines>, i: nat)
    requires i < |heap|
    ensures NoEmptyChunk(heap) ==> NoEmptyChunk(Remove(heap, i))
    ensures AllSorted(heap) ==> AllSorted(Remove(heap, i))
  {
  }

  lemma PieceIsSorted(chunk: Lines, k: nat)
    requires Sorted(chunk) && k <= |chunk|
    ensures Sorted(chunk[k..])
  {
  }

  lemma AfterKeepsGood(heap: seq<Lines>, i: nat, k: nat)
    requires MergeStep(heap, i, k)
    ensures NoEmptyChunk(heap) ==> NoEmptyChunk(After(heap, i, k))
    ensures AllSorted(heap) ==> AllSorted(After(heap, i, k))
  {
    RemoveKeepsGood(heap, i);
    if AllSorted(heap) {
      PieceIsSorted(heap[i], k);
    }
  }

  /** One iteration followed by a sorted rest is sorted. */
  lemma EmittedThenRest(heap: seq<Lines>, i: nat, k: nat, rest: Lines)
    requires NoEmptyChunk(heap) && AllSorted(heap) && MergeStep(heap, i, k)
    requires Sorted(rest) && multiset(rest) == Union(After(heap, i, k))
    ensures Sorted(heap[i][..k] + rest)
  {
    var first := heap[i][..k];
    forall x | x in first ensures Below(x, multiset(rest)) {
      EmittedBelowRest(heap, i, k, x);
    }
    assert Sorted(first);
    SortedConcat(first, rest);
  }

  lemma {:induction false} DriveSorts(heap: seq<Lines>, choices: seq<Choice>)
    requires NoEmptyChunk(heap) && AllSorted(heap) && Drives(heap, choices)
    ensures Sorted(Emission(heap, choices))
    decreases |choices|
  {
    if choices == [] {
    } else {
      var Choice(i, k) := choices[0];
      var rest := After(heap, i, k);
      AfterKeepsGood(heap, i, k);
      DriveSorts(rest, choices[1..]);
      DriveConserves(rest, choices[1..]);
      EmittedThenRest(heap, i, k, Emission(rest, choices[1..]));
    }
  }

  /** From sorted, non-empty chunks every run of the merge loop emits a sorted sequence. */
  lemma MergeSorts(heap: seq<Lines>, out: Lines)
    requires NoEmptyChunk(heap) && AllSorted(heap) && MergeRun(heap, out)
    ensures Sorted(out)
  {
    var choices :| Drives(heap, choices) && out == Emission(heap, choices);
    DriveSorts(heap, choices);
  }

  /** What a loop emits from a chunk comes before what it emits later from the same chunk. */
  lemma SortedAcross(first: Lines, left: Lines, later: Lines)
    requires Sorted(first + later) && Sorted(left) && multiset(left) <= multiset(later)
    ensures Sorted(first + left)
  {
    var out := first + later;
    forall x | x in first ensures Below(x, multiset(left)) {
      var p :| 0 <= p < |first| && first[p] == x;
      forall y | y in multiset(left) ensures Leq(x, y) {
        assert y in later;
        var q :| 0 <= q < |later| && later[q] == y;
        assert out[p] == x && out[|first| + q] == y;
      }
    }
    assert Sorted(first) by {
      assert forall n :: 0 <= n < |first| ==> first[n] == out[n];
    }
    SortedConcat(first, left);
  }

  lemma SortedSuffix(first: Lines, later: Lines)
    requires Sorted(first + later)
    ensures Sorted(later) && Sorted(first)
  {
    assert forall n :: 0 <= n < |later| ==> later[n] == (first + later)[|first| + n];
    assert forall n :: 0 <= n < |first| ==> first[n] == (first + later)[n];
  }

  /** The other chunks are left as they are. */
  lemma OthersStay(heap: seq<Lines>, i: nat, k: nat, n: nat)
    requires i < |heap| && k <= |heap[i]| && n < |heap| && n != i
    ensures heap[n] in After(heap, i, k)
  {
    var m := if n < i then n else n - 1;
    assert Remove(heap, i)[m] == heap[n];
    assert After(heap, i, k)[m] == heap[n];
  }

  lemma LeftIsAmong(rest: seq<Lines>, left: Lines)
    ensures multiset(left) <= Union(rest + [left])
  {
    UnionConcat(rest, [left]);
    UnionSingle(left);
  }

  /** The chunk that was popped. */
  lemma PoppedWasSorted(heap: seq<Lines>, i: nat, k: nat, later: Lines)
    requires i < |heap| && k < |heap[i]|
    requires AllSorted(After(heap, i, k)) && multiset(later) == Union(After(heap, i, k))
    requires Sorted(heap[i][..k] + later)
    ensures Sorted(heap[i])
  {
    var rest, left := Remove(heap, i), heap[i][k..];
    assert After(heap, i, k)[|rest|] == left;
    LeftIsAmong(rest, left);
    SortedAcross(heap[i][..k], left, later);
    assert heap[i] == heap[i][..k] + left;
  }

  lemma TurnedWasSorted(heap: seq<Lines>, i: nat, k: nat, later: Lines)
    requires i < |heap| && k <= |heap[i]|
    requires AllSorted(After(heap, i, k)) && multiset(later) == Union(After(heap, i, k))
    requires Sorted(heap[i][..k] + later)
    ensures Sorted(heap[i])
  {
    if k == |heap[i]| {
      SortedSuffix(heap[i][..k], later);
      assert heap[i][..k] == heap[i];
    } else {
      PoppedWasSorted(heap, i, k, later);
    }
  }

  lemma OtherWasSorted(heap: seq<Lines>, i: nat, k: nat, n: nat)
    requires i < |heap| && k <= |heap[i]| && n < |heap| && n != i && AllSorted(After(heap, i, k))
    ensures Sorted(heap[n])
  {
    OthersStay(heap, i, k, n);
  }

  /** One turn backwards: when what it leaves is sorted and the output is, the chunks were. */
  lemma StepBackSorted(heap: seq<Lines>, i: nat, k: nat, later: Lines)
    requires i < |heap| && k <= |heap[i]|
    requires AllSorted(After(heap, i, k)) && multiset(later) == Union(After(heap, i, k))
    requires Sorted(heap[i][..k] + later)
    ensures AllSorted(heap)
  {
    TurnedWasSorted(heap, i, k, later);
    forall n | 0 <= n < |heap| ensures Sorted(heap[n]) {
      if n != i {
        OtherWasSorted(heap, i, k, n);
      }
    }
  }

  lemma {:induction false} SortedEmission(heap: seq<Lines>, choices: seq<Choice>)
    requires Drives(heap, choices) && Sorted(Emission(heap, choices))
    ensures AllSorted(heap)
    decreases |choices|
  {
    if choices == [] {
    } else {
      var Choice(i, k) := choices[0];
      var rest := After(heap, i, k);
      SortedSuffix(heap[i][..k], Emission(rest, choices[1..]));
      SortedEmission(rest, choices[1..]);
      DriveConserves(rest, choices[1..]);
      StepBackSorted(heap, i, k, Emission(rest, choices[1..]));
    }
  }

  /** Merging keeps the order within a chunk, so what is unsorted stays unsorted. */
  lemma UnsortedStays(heap: seq<Lines>, out: Lines)
    requires MergeRun(heap, out) && !AllSorted(heap)
    ensures !Sorted(out)
  {
    if Sorted(out) {
      var choices :| Drives(heap, choices) && out == Emission(heap, choices);
      SortedEmission(heap, choices);
    }
  }

  // ---------- the one-line-at-a-time merge ----------

  /** The chunk of least head, the first one among equals. */
  function LeastHead(heap: seq<Lines>): (i: nat)
    requires heap != [] && NoEmptyChunk(heap)
    ensures i < |heap|
  {
    if |heap| == 1 then 0 else
      var i := 1 + LeastHead(heap[1..]);
      if Leq(heap[0][0], heap[i][0]) then 0 else i
  }

  lemma {:induction false} LeastHeadIsLeast(heap: seq<Lines>)
    requires heap != [] && NoEmptyChunk(heap)
    ensures BelowHeads(heap[LeastHead(heap)][0], heap)
  {
    LeqReflexive(heap[0][0]);
    if |heap| <= 1 {
    } else {
      LeastHeadIsLeast(heap[1..]);
      var i := 1 + LeastHead(heap[1..]);
      LeqTotal(heap[0][0], heap[i][0]);
      forall k | 0 <= k < |heap| ensures Leq(heap[LeastHead(heap)][0], heap[k][0]) {
        if k > 0 {
          assert heap[k] == heap[1..][k - 1] && heap[i] == heap[1..][i - 1];
          if LeastHead(heap) == 0 {
            LeqTransitive(heap[0][0], heap[i][0], heap[k][0]);
          }
        }
      }
    }
  }

  /** The reference merge: take the least head, one line at a time. */
  ghost function MinMerge(heap: seq<Lines>): Lines
    requires NoEmptyChunk(heap)
    decreases Weight(heap)
  {
    if heap == [] then [] else
      var i := LeastHead(heap);
      AfterShrinks(heap, i, 1);
      [heap[i][0]] + MinMerge(After(heap, i, 1))
  }

  lemma MinMergeUnfold(heap: seq<Lines>, i: nat, rest: seq<Lines>)
    requires NoEmptyChunk(heap) && heap != [] && i == LeastHead(heap) && rest == After(heap, i, 1)
    requires NoEmptyChunk(rest)
    ensures MinMerge(heap) == [heap[i][0]] + MinMerge(rest)
  {
  }

  /** One turn of the reference merge. */
  lemma LeastStep(heap: seq<Lines>) returns (i: nat, rest: seq<Lines>)
    requires NoEmptyChunk(heap) && heap != []
    ensures i == LeastHead(heap) && BelowHeads(heap[i][0], heap) && rest == After(heap, i, 1)
    ensures NoEmptyChunk(rest) && (AllSorted(heap) ==> AllSorted(rest)) && Weight(rest) < Weight(heap)
  {
    i := LeastHead(heap);
    rest := After(heap, i, 1);
    LeastHeadIsLeast(heap);
    AfterShrinks(heap, i, 1);
    PieceGoesBack(heap, i);
  }

  lemma PieceGoesBack(heap: seq<Lines>, i: nat)
    requires NoEmptyChunk(heap) && i < |heap|
    ensures NoEmptyChunk(After(heap, i, 1)) && (AllSorted(heap) ==> AllSorted(After(heap, i, 1)))
  {
    RemoveKeepsGood(heap, i);
    if AllSorted(heap) {
      PieceIsSorted(heap[i], 1);
    }
  }

  /** The least head, followed by a sorted rest. */
  lemma LeastThenRest(heap: seq<Lines>, i: nat, rest: Lines)
    requires NoEmptyChunk(heap) && AllSorted(heap) && i < |heap| && BelowHeads(heap[i][0], heap)
    requires Sorted(rest) && multiset(rest) == Union(After(heap, i, 1))
    ensures Sorted([heap[i][0]] + rest) && multiset([heap[i][0]] + rest) == Union(heap)
  {
    AfterShrinks(heap, i, 1);
    assert heap[i][..1] == [heap[i][0]];
    BelowHeadsBelowAll(heap[i][0], heap);
    SortedConcat([heap[i][0]], rest);
  }

  lemma {:induction false} MinMergeSorts(heap: seq<Lines>)
    requires NoEmptyChunk(heap) && AllSorted(heap)
    ensures Sorted(MinMerge(heap)) && multiset(MinMerge(heap)) == Union(heap)
    decreases Weight(heap)
  {
    if heap == [] {
    } else {
      var i, rest := LeastStep(heap);
      MinMergeUnfold(heap, i, rest);
      MinMergeSorts(rest);
      LeastThenRest(heap, i, MinMerge(rest));
    }
  }

  /** Emitting whole runs up to the limit gives the very sequence of the one-line-at-a-time merge. */
  lemma MergeIsMinMerge(heap: seq<Lines>, out: Lines)
    requires NoEmptyChunk(heap) && AllSorted(heap) && MergeRun(heap, out)
    ensures out == MinMerge(heap)
  {
    MergeSorts(heap, out);
    MergeConserves(heap, out);
    MinMergeSorts(heap);
    SortedUnique(out, MinMerge(heap));
  }

  // ---------- exactly when merging is sure to sort ----------

  ghost predicate AtMostOneNonEmpty(heap: seq<Lines>) {
    forall i, j :: 0 <= i < j < |heap| ==> heap[i] == [] || heap[j] == []
  }

  ghost predicate SafeToMerge(heap: seq<Lines>) {
    NoEmptyChunk(heap) || AtMostOneNonEmpty(heap) || AllEqual(Union(heap))
  }

  /** When only one chunk holds lines, it holds all of them. */
  lemma OneNonEmptyUnion(heap: seq<Lines>, i: nat)
    requires AtMostOneNonEmpty(heap) && i < |heap| && heap[i] != []
    ensures Union(heap) == multiset(heap[i])
  {
    OthersEmpty(heap, i);
    AllEmptyUnion(Remove(heap, i));
    UnionRemove(heap, i);
  }

  lemma AllEqualSorted(out: Lines)
    requires AllEqual(multiset(out))
    ensures Sorted(out)
  {
    forall i, j | 0 <= i < j < |out| ensures Leq(out[i], out[j]) {
      assert out[i] in multiset(out) && out[j] in multiset(out);
      LeqReflexive(out[i]);
    }
  }

  lemma {:induction false} AllEmptyUnion(heap: seq<Lines>)
    requires forall i :: 0 <= i < |heap| ==> heap[i] == []
    ensures Union(heap) == multiset{}
  {
    if heap == [] {
    } else {
      AllEmptyUnion(heap[1..]);
    }
  }

  /** Popping the one chunk with lines emits it whole, and nothing is left. */
  lemma OneChunkAtOnce(heap: seq<Lines>, i: nat, k: nat)
    requires AtMostOneNonEmpty(heap) && MergeStep(heap, i, k) && heap[i] != []
    ensures k == |heap[i]| && Union(After(heap, i, k)) == multiset{}
  {
    OthersEmpty(heap, i);
    AllEmptyUnion(Remove(heap, i));
  }

  lemma NothingEmitted(heap: seq<Lines>, choices: seq<Choice>)
    requires Drives(heap, choices) && Union(heap) == multiset{}
    ensures Emission(heap, choices) == []
  {
    DriveConserves(heap, choices);
    assert |Emission(heap, choices)| == |multiset(Emission(heap, choices))|;
  }

  /** Popping an empty chunk emits nothing. */
  lemma EmptyChunkFirst(heap: seq<Lines>, choices: seq<Choice>)
    requires AtMostOneNonEmpty(heap) && AllSorted(heap) && Drives(heap, choices)
    requires choices != [] && heap[choices[0].i] == []
    ensures var rest := Remove(heap, choices[0].i);
            && AtMostOneNonEmpty(rest) && AllSorted(rest) && Drives(rest, choices[1..])
            && Emission(heap, choices) == Emission(rest, choices[1..])
  {
    var Choice(i, k) := choices[0];
    EmissionUnfold(heap, choices);
    RemoveKeepsAtMostOne(heap, i);
    RemoveKeepsGood(heap, i);
    var later := Emission(Remove(heap, i), choices[1..]);
    assert [] + later == later;
  }

  /** Popping the chunk with lines emits all there is. */
  lemma NonEmptyChunkFirst(heap: seq<Lines>, choices: seq<Choice>)
    requires AtMostOneNonEmpty(heap) && Drives(heap, choices)
    requires choices != [] && heap[choices[0].i] != []
    ensures Emission(heap, choices) == heap[choices[0].i]
  {
    var Choice(i, k) := choices[0];
    EmissionUnfold(heap, choices);
    OneChunkAtOnce(heap, i, k);
    NothingEmitted(After(heap, i, k), choices[1..]);
    assert heap[i][..k] + [] == heap[i];
  }

  /** A single non-empty chunk passes through unchanged. */
  lemma {:induction false} OneChunkPasses(heap: seq<Lines>, choices: seq<Choice>)
    requires AtMostOneNonEmpty(heap) && AllSorted(heap) && Drives(heap, choices)
    ensures Sorted(Emission(heap, choices))
    decreases |choices|
  {
    if choices == [] {
    } else if heap[choices[0].i] == [] {
      EmptyChunkFirst(heap, choices);
      OneChunkPasses(Remove(heap, choices[0].i), choices[1..]);
    } else {
      NonEmptyChunkFirst(heap, choices);
    }
  }

  lemma RemoveKeepsAtMostOne(heap: seq<Lines>, i: nat)
    requires AtMostOneNonEmpty(heap) && i < |heap|
    ensures AtMostOneNonEmpty(Remove(heap, i))
  {
  }

  lemma OthersEmpty(heap: seq<Lines>, i: nat)
    requires AtMostOneNonEmpty(heap) && i < |heap| && heap[i] != []
    ensures forall j :: 0 <= j < |Remove(heap, i)| ==> Remove(heap, i)[j] == []
  {
    forall j | 0 <= j < |Remove(heap, i)| ensures Remove(heap, i)[j] == [] {
      assert Remove(heap, i)[j] == heap[if j < i then j else j + 1];
    }
  }

  /** With an empty chunk e in the heap, a chunk may be written out whole before anything else. */
  lemma WholeChunkFirst(heap: seq<Lines>, i: nat, e: nat) returns (rest: Lines)
    requires i < |heap| && e < |heap| && i != e && heap[e] == []
    ensures MergeRun(heap, heap[i] + rest) && multiset(rest) == Union(Remove(heap, i))
  {
    var others := Remove(heap, i);
    var j := if e < i then e else e - 1;
    assert others[j] == [];
    assert CanTop(heap, i) && CanTop(others, j) && Emitted(heap[i], others[j]) == |heap[i]|;
    assert MergeStep(heap, i, |heap[i]|);
    rest := MergeTotal(others);
    MergeConserves(others, rest);
    MergeRunStep(heap, i, |heap[i]|, rest);
    assert heap[i][..|heap[i]|] == heap[i];
  }

  /** A line at chunk i that is not below a line of another chunk makes an unsorted output possible. */
  lemma OutOfOrder(heap: seq<Lines>, i: nat, e: nat, x: Line, y: Line) returns (out: Lines)
    requires i < |heap| && e < |heap| && i != e && heap[e] == []
    requires x in heap[i] && y in Union(Remove(heap, i)) && !Leq(x, y)
    ensures MergeRun(heap, out) && !Sorted(out)
  {
    var rest := WholeChunkFirst(heap, i, e);
    out := heap[i] + rest;
    assert y in multiset(rest);
    var p :| 0 <= p < |heap[i]| && heap[i][p] == x;
    var q :| 0 <= q < |rest| && rest[q] == y;
    assert out[p] == x && out[|heap[i]| + q] == y;
  }

  /** The same for two different lines in two different chunks, whichever comes first in the order. */
  lemma DifferentLinesFail(heap: seq<Lines>, i: nat, j: nat, e: nat, x: Line, y: Line) returns (out: Lines)
    requires i < |heap| && j < |heap| && e < |heap| && i != j && heap[e] == []
    requires x in heap[i] && y in heap[j] && x != y
    ensures MergeRun(heap, out) && !Sorted(out)
  {
    OtherChunk(heap, i, j, y);
    OtherChunk(heap, j, i, x);
    if Leq(x, y) {
      if Leq(y, x) {
        LeqAntisymmetric(x, y);
      }
      out := OutOfOrder(heap, j, e, y, x);
    } else {
      out := OutOfOrder(heap, i, e, x, y);
    }
  }

  lemma OtherChunk(heap: seq<Lines>, i: nat, j: nat, y: Line)
    requires i < |heap| && j < |heap| && i != j && y in heap[j]
    ensures y in Union(Remove(heap, i))
  {
    UnionMember(Remove(heap, i), y);
    assert Remove(heap, i)[if j < i then j else j - 1] == heap[j];
  }

  lemma UnsafeMayFail(heap: seq<Lines>) returns (out: Lines)
    requires !SafeToMerge(heap)
    ensures MergeRun(heap, out) && !Sorted(out)
  {
    var e: nat :| e < |heap| && heap[e] == [];
    var i, j, x, y := DifferentLinesInDifferentChunks(heap);
    out := DifferentLinesFail(heap, i, j, e, x, y);
  }

  lemma DifferentLinesInDifferentChunks(heap: seq<Lines>) returns (i: nat, j: nat, x: Line, y: Line)
    requires !AtMostOneNonEmpty(heap) && !AllEqual(Union(heap))
    ensures i < |heap| && j < |heap| && i != j
    ensures x in heap[i] && y in heap[j] && x != y
  {
    var a: nat, b: nat :| a < b < |heap| && heap[a] != [] && heap[b] != [];
    var u, v :| u in Union(heap) && v in Union(heap) && u != v;
    // one of the two differs from the first line of chunk a
    var w := if u == heap[a][0] then v else u;
    UnionMember(heap, w);
    var c :| 0 <= c < |heap| && w in heap[c];
    if c != a {
      i, j, x, y := a, c, heap[a][0], w;
    } else {
      // then chunk a holds two different lines, and one of them differs from the first of chunk b
      i, j, y := a, b, heap[b][0];
      x := if heap[a][0] == y then w else heap[a][0];
    }
  }

  /**
   Exactly when the merge loop is sure to sort: the chunks are sorted, and no chunk is empty, or
   there is nothing to interleave, or all lines are the same.
   */
  lemma MergeSortedIff(heap: seq<Lines>)
    ensures (forall out :: MergeRun(heap, out) ==> Sorted(out)) <==> AllSorted(heap) && SafeToMerge(heap)
  {
    if !AllSorted(heap) {
      var out := MergeTotal(heap);
      UnsortedStays(heap, out);
    } else if SafeToMerge(heap) {
      forall out | MergeRun(heap, out) ensures Sorted(out) {
        SafeMergeSorts(heap, out);
      }
    } else {
      var out := UnsafeMayFail(heap);
    }
  }

  lemma SafeMergeSorts(heap: seq<Lines>, out: Lines)
    requires AllSorted(heap) && SafeToMerge(heap) && MergeRun(heap, out)
    ensures Sorted(out)
  {
    if NoEmptyChunk(heap) {
      MergeSorts(heap, out);
    } else if AtMostOneNonEmpty(heap) {
      var choices :| Drives(heap, choices) && out == Emission(heap, choices);
      OneChunkPasses(heap, choices);
    } else {
      MergeConserves(heap, out);
      AllEqualSorted(out);
    }
  }
}
