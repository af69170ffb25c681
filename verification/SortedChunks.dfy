/**
 `SortedChunk` with its peeked head, the heap of chunks, and the three merge loops as they run on
 them.  `BinaryHeap` and `sort_unstable` are taken by contract.
 */
module SortedChunks {
  import opened Bytes
  import opened Lines
  import opened Merging
  import opened Sequences
  import opened SortJobs

  /** A chunk reads its lines from a temporary file or from memory. */
  datatype LineIterator = File(rest: seq<byte>) | Vec(lines: seq<Line>) {

    function Remaining(): seq<Line> {
      match this
      case File(rest) => SplitLines(rest)
      case Vec(lines) => lines
    }

    /** The next line and the iterator after it. */
    function Advance(): (r: (Option<Line>, LineIterator))
      ensures r.1.File? == File?
      ensures r.0.None? ==> Remaining() == [] && r.1.Remaining() == []
      ensures r.0.Some? ==> Remaining() == [r.0.value] + r.1.Remaining()
    {
      match this
      case File(rest) =>
        if rest == [] then (None, this) else
          var p := FirstIndex(rest, NEWLINE);
          if p == |rest| then (Some(Line(rest)), File([]))
          else (Some(Line(rest[..p])), File(rest[p + 1..]))
      case Vec(lines) =>
        if lines == [] then (None, this) else (Some(lines[0]), Vec(lines[1..]))
    }
  }

  class SortedChunk {
    var merged: bool
    var source: LineIterator
    var head: Option<Line>

    predicate Valid()
      reads this
    {
      head.None? ==> source.Remaining() == []
    }

    /** The lines the chunk still holds. */
    function Contents(): Merging.Lines
      reads this
    {
      if head.None? then [] else [head.value] + source.Remaining()
    }

    function View(): Chunk
      reads this
    {
      Chunk(Contents(), merged, source.File?)
    }

    constructor New(lines: seq<Line>)
      ensures Valid() && View() == Chunk(lines, false, false)
    {
      merged := false;
      source := Vec(lines);
      head := None;
      new;
      var _ := Next();
    }

    constructor FromFile(bytes: seq<byte>)
      ensures Valid() && View() == Chunk(SplitLines(bytes), true, true)
    {
      merged := true;
      source := File(bytes);
      head := None;
      new;
      var _ := Next();
    }

    /** Gives the head away and reads the next one. */
    method Next() returns (line: Option<Line>)
      modifies this
      ensures Valid() && merged == old(merged) && source.File? == old(source.File?)
      ensures line == old(head) && Contents() == old(source.Remaining())
      ensures line.Some? ==> old(Contents()) == [line.value] + Contents()
    {
      var (next, rest) := source.Advance();
      line := head;
      source, head := rest, next;
    }

    /** Writes all lines. */
    method Drain(write: Writer)
      requires Valid()
      modifies this, write
      ensures Valid() && Contents() == []
      ensures write.bytes == old(write.bytes) + Unlines(old(Contents()))
    {
      ghost var all := Contents();
      ghost var taken := [];
      while head.Some?
        invariant Valid() && all == taken + Contents()
        invariant write.bytes == old(write.bytes) + Unlines(taken)
        decreases |Contents()|
      {
        var line := WriteNext(write);
        UnlinesSnoc(old(write.bytes), taken, line);
        MoveOver(taken, line, Contents());
        taken := taken + [line];
      }
      assert taken + [] == taken;
    }

    /** Takes one line and writes it. */
    method WriteNext(write: Writer) returns (line: Line)
      requires Valid() && head.Some?
      modifies this, write
      ensures Valid() && merged == old(merged) && source.File? == old(source.File?)
      ensures old(Contents()) == [line] + Contents()
      ensures write.bytes == old(write.bytes) + (line.bytes + [NEWLINE])
    {
      var next := Next();
      line := next.value;
      write.WriteLine(line);
    }

    /** Writes the head, and then all lines up to the limit; true when the chunk is used up. */
    method DrainUntil(write: Writer, limit: Line) returns (exhausted: bool, ghost taken: seq<Line>)
      requires Valid()
      modifies this, write
      ensures Valid() && old(Contents()) == taken + Contents()
      ensures |taken| == UpTo(old(Contents()), limit)
      ensures write.bytes == old(write.bytes) + Unlines(taken)
      ensures exhausted == (Contents() == [])
    {
      ghost var all, before := Contents(), write.bytes;
      taken := [];
      while head.Some?
        invariant Valid() && Partly(all, taken, Contents(), limit)
        invariant write.bytes == before + Unlines(taken)
        decreases |Contents()|
      {
        var line := WriteNext(write);
        UnlinesSnoc(before, taken, line);
        TakeOne(all, taken, line, Contents(), limit);
        taken := taken + [line];
        if head.Some? && !Leq(head.value, limit) {
          return false, taken;
        }
      }
      exhausted := true;
    }

    /** The inner loop of `run_merge`: the same, into a vector. */
    method TakeUntil(limit: Line) returns (taken: seq<Line>)
      requires Valid()
      modifies this
      ensures Valid() && old(Contents()) == taken + Contents()
      ensures |taken| == UpTo(old(Contents()), limit)
    {
      ghost var all := Contents();
      taken := [];
      while head.Some?
        invariant Valid() && Partly(all, taken, Contents(), limit)
        decreases |Contents()|
      {
        var line := Next();
        TakeOne(all, taken, line.value, Contents(), limit);
        taken := taken + [line.value];
        if head.Some? && !Leq(head.value, limit) {
          break;
        }
      }
    }

    /** `for_each` into a vector. */
    method TakeAll() returns (taken: seq<Line>)
      requires Valid()
      modifies this
      ensures Valid() && taken == old(Contents()) && Contents() == []
    {
      ghost var all := Contents();
      taken := [];
      while head.Some?
        invariant Valid() && all == taken + Contents()
        decreases |Contents()|
      {
        var line := Next();
        MoveOver(taken, line.value, Contents());
        taken := taken + [line.value];
      }
      assert taken + [] == taken;
    }
  }

  lemma UnlinesSnoc(before: seq<byte>, taken: seq<Line>, line: Line)
    ensures before + Unlines(taken) + (line.bytes + [NEWLINE]) == before + Unlines(taken + [line])
  {
    UnlinesConcat(taken, [line]);
    UnlinesOne(line);
    Associative(before, Unlines(taken), line.bytes + [NEWLINE]);
  }

  lemma UnlinesOne(line: Line)
    ensures Unlines([line]) == line.bytes + [NEWLINE]
  {
    assert [line][1..] == [];
    assert line.bytes + [NEWLINE] + [] == line.bytes + [NEWLINE];
  }

  /** A chunk of which some lines have left under a limit, and the rest may. */
  ghost predicate Partly(all: seq<Line>, taken: seq<Line>, rest: seq<Line>, limit: Line) {
    all == taken + rest && |taken| + UpTo(rest, limit) == UpTo(all, limit)
  }

  /** One more line leaves, and either all do that may, or the next one may. */
  lemma TakeOne(all: seq<Line>, taken: seq<Line>, line: Line, rest: seq<Line>, limit: Line)
    requires Partly(all, taken, [line] + rest, limit)
    ensures all == taken + [line] + rest
    ensures if rest == [] || !Leq(rest[0], limit) then |taken + [line]| == UpTo(all, limit)
            else Partly(all, taken + [line], rest, limit)
  {
    MoveOver(taken, line, rest);
    UpToCons(line, rest, limit);
  }

  /** The number of lines that leave a chunk under a limit. */
  ghost function UpTo(chunk: Merging.Lines, limit: Line): nat {
    if chunk == [] then 0 else CutAt(chunk, limit)
  }

  lemma UpToCons(line: Line, rest: seq<Line>, limit: Line)
    ensures UpTo([line] + rest, limit) == 1 + if rest == [] || !Leq(rest[0], limit) then 0 else UpTo(rest, limit)
  {
    assert ([line] + rest)[1..] == rest;
  }

  /** Standard output or a temporary file. */
  class Writer {
    var bytes: seq<byte>

    constructor ()
      ensures bytes == []
    {
      bytes := [];
    }

    method WriteLine(line: Line)
      modifies this
      ensures bytes == old(bytes) + (line.bytes + [NEWLINE])
    {
      bytes := bytes + line.bytes;
      bytes := bytes + [NEWLINE];
    }
  }

  // ---------- the heap ----------

  ghost predicate Distinct(items: seq<SortedChunk>) {
    forall i, j :: 0 <= i < j < |items| ==> items[i] != items[j]
  }

  ghost predicate AllValid(items: seq<SortedChunk>)
    reads items
  {
    forall i :: 0 <= i < |items| ==> items[i].Valid()
  }

  function Values(items: seq<SortedChunk>): (r: seq<Merging.Lines>)
    reads items
    ensures |r| == |items|
  {
    if items == [] then [] else [items[0].Contents()] + Values(items[1..])
  }

  lemma {:induction false} ValuesAt(items: seq<SortedChunk>, i: nat)
    requires i < |items|
    ensures Values(items)[i] == items[i].Contents()
  {
    if i == 0 {
    } else {
      ValuesAt(items[1..], i - 1);
    }
  }

  function Views(items: seq<SortedChunk>): (r: seq<Chunk>)
    reads items
    ensures LinesOf(r) == Values(items)
  {
    if items == [] then [] else [items[0].View()] + Views(items[1..])
  }

  class BinaryHeap {
    var items: seq<SortedChunk>

    constructor (chunks: seq<SortedChunk>)
      ensures items == chunks
    {
      items := chunks;
    }

    method Pop() returns (chunk: SortedChunk?, ghost i: nat)
      modifies this
      ensures chunk == null <==> old(items) == []
      ensures chunk == null ==> items == []
      ensures chunk != null ==> i < |old(items)| && chunk == old(items)[i] && items == Remove(old(items), i)
      ensures chunk != null ==> CanTop(Values(old(items)), i)
    {
      if |items| == 0 {
        return null, 0;
      }
      ghost var least := TopExists(Values(items));
      var k: nat :| k < |items| && CanTop(Values(items), k);
      chunk, i := items[k], k;
      items := Remove(items, k);
    }

    method Peek() returns (chunk: SortedChunk?, ghost j: nat)
      ensures chunk == null <==> items == []
      ensures chunk != null ==> j < |items| && chunk == items[j] && CanTop(Values(items), j)
    {
      if |items| == 0 {
        return null, 0;
      }
      ghost var least := TopExists(Values(items));
      var k: nat :| k < |items| && CanTop(Values(items), k);
      chunk, j := items[k], k;
    }

    method Push(chunk: SortedChunk)
      modifies this
      ensures items == old(items) + [chunk]
    {
      items := items + [chunk];
    }
  }

  // ---------- the merge loops ----------

  lemma {:induction false} ValuesConcat(a: seq<SortedChunk>, b: seq<SortedChunk>)
    ensures Values(a + b) == Values(a) + Values(b)
  {
    if a == [] {
      assert a + b == b;
    } else {
      assert (a + b)[0] == a[0] && (a + b)[1..] == a[1..] + b;
      ValuesConcat(a[1..], b);
      assert [a[0].Contents()] + (Values(a[1..]) + Values(b)) == [a[0].Contents()] + Values(a[1..]) + Values(b);
    }
  }

  /** Values of the items but one are the values but one. */
  lemma {:induction false} ValuesRemove(items: seq<SortedChunk>, i: nat)
    requires i < |items|
    ensures Values(Remove(items, i)) == Remove(Values(items), i)
  {
    RemoveCons(items, i);
    RemoveCons(Values(items), i);
    assert Values(items)[1..] == Values(items[1..]);
    if i == 0 {
    } else {
      ValuesRemove(items[1..], i - 1);
      assert ([items[0]] + Remove(items[1..], i - 1))[1..] == Remove(items[1..], i - 1);
    }
  }

  lemma ValuesPush(items: seq<SortedChunk>, chunk: SortedChunk)
    ensures Values(items + [chunk]) == Values(items) + [chunk.Contents()]
  {
    ValuesConcat(items, [chunk]);
    assert [chunk][1..] == [];
  }

  /** The rest of the heap is untouched by what happens to a popped chunk. */
  twostate lemma {:induction false} ValuesFrame(items: seq<SortedChunk>)
    requires forall i :: 0 <= i < |items| ==> unchanged(items[i])
    ensures Values(items) == old(Values(items))
  {
    if items == [] {
    } else {
      ValuesFrame(items[1..]);
    }
  }

  /** A heap of valid chunks, all of them from `owned`. */
  ghost predicate Holds(items: seq<SortedChunk>, owned: seq<SortedChunk>)
    reads items
  {
    Distinct(items) && AllValid(items) && forall i :: 0 <= i < |items| ==> items[i] in owned
  }

  lemma RemoveHolds(items: seq<SortedChunk>, owned: seq<SortedChunk>, i: nat)
    requires Holds(items, owned) && i < |items|
    ensures Holds(Remove(items, i), owned) && items[i] !in Remove(items, i)
    ensures items[i] in owned && items[i].Valid()
  {
  }

  /** The limit that the heap shows, from which the number of emitted lines follows. */
  function LimitOf(top: SortedChunk?): Option<Line>
    reads if top == null then {} else {top}
  {
    if top == null then None else top.head
  }

  lemma StepFromLimit(heap: seq<Merging.Lines>, i: nat, rest: seq<Merging.Lines>, limit: Option<Line>, j: nat)
    requires CanTop(heap, i) && rest == Remove(heap, i)
    requires rest != [] ==> CanTop(rest, j)
    requires limit == if rest == [] || rest[j] == [] then None else Some(rest[j][0])
    ensures MergeStep(heap, i, if limit.None? then |heap[i]| else UpTo(heap[i], limit.value))
  {
    if rest != [] {
      assert Emitted(heap[i], rest[j]) == if limit.None? then |heap[i]| else UpTo(heap[i], limit.value);
    }
  }

  /** Pops a chunk and looks at the head that the heap then shows. */
  method PopWithLimit(heap: BinaryHeap, owned: seq<SortedChunk>)
    returns (chunk: SortedChunk, limit: Option<Line>, ghost i: nat)
    requires heap.items != [] && Holds(heap.items, owned)
    modifies heap
    ensures Holds(heap.items, owned) && chunk in owned && chunk.Valid() && chunk !in heap.items
    ensures i < |old(heap.items)| && chunk.Contents() == old(Values(heap.items))[i]
    ensures Values(heap.items) == Remove(old(Values(heap.items)), i)
    ensures MergeStep(old(Values(heap.items)), i,
                      if limit.None? then |chunk.Contents()| else UpTo(chunk.Contents(), limit.value))
  {
    ghost var items := heap.items;
    ghost var before := Values(items);
    var popped;
    popped, i := heap.Pop();
    chunk := popped;
    RemoveHolds(items, owned, i);
    ValuesAt(items, i);
    ValuesRemove(items, i);
    limit := PeekLimit(heap, before, i);
  }

  method PeekLimit(heap: BinaryHeap, ghost before: seq<Merging.Lines>, ghost i: nat) returns (limit: Option<Line>)
    requires AllValid(heap.items)
    requires CanTop(before, i) && Values(heap.items) == Remove(before, i)
    ensures MergeStep(before, i, if limit.None? then |before[i]| else UpTo(before[i], limit.value))
  {
    var top, j := heap.Peek();
    if top != null {
      ValuesAt(heap.items, j);
    }
    limit := LimitOf(top);
    StepFromLimit(before, i, Values(heap.items), limit, j);
  }

  /** What is left of a chunk goes back to the heap unless it is used up. */
  method PushBack(heap: BinaryHeap, owned: seq<SortedChunk>, chunk: SortedChunk, exhausted: bool,
                  ghost before: seq<Merging.Lines>, ghost i: nat, ghost k: nat)
    requires Holds(heap.items, owned) && chunk in owned && chunk.Valid() && chunk !in heap.items
    requires i < |before| && k <= |before[i]|
    requires Values(heap.items) == Remove(before, i) && chunk.Contents() == before[i][k..]
    requires exhausted == (chunk.Contents() == [])
    modifies heap
    ensures Holds(heap.items, owned)
    ensures Values(heap.items) == After(before, i, k)
  {
    if !exhausted {
      ValuesPush(heap.items, chunk);
      heap.Push(chunk);
    }
  }

  /** Writes a popped chunk up to the limit, or all of it when there is none. */
  method WriteUpTo(chunk: SortedChunk, limit: Option<Line>, write: Writer)
    returns (exhausted: bool, ghost taken: seq<Line>)
    requires chunk.Valid()
    modifies chunk, write
    ensures chunk.Valid() && old(chunk.Contents()) == taken + chunk.Contents()
    ensures |taken| == if limit.None? then |old(chunk.Contents())| else UpTo(old(chunk.Contents()), limit.value)
    ensures write.bytes == old(write.bytes) + Unlines(taken)
    ensures exhausted == (chunk.Contents() == [])
  {
    match limit {
      case Some(line) =>
        exhausted, taken := chunk.DrainUntil(write, line);
      case None =>
        exhausted, taken := true, chunk.Contents();
        chunk.Drain(write);
        assert taken + [] == taken;
    }
  }

  lemma SplitAt(all: seq<Line>, taken: seq<Line>, rest: seq<Line>)
    requires all == taken + rest
    ensures all[..|taken|] == taken && all[|taken|..] == rest
  {
  }

  /** One turn of the loop of `run_merge_flush` and of the final merge. */
  method WriteStep(heap: BinaryHeap, owned: seq<SortedChunk>, write: Writer)
    returns (ghost i: nat, ghost k: nat)
    requires heap.items != [] && Holds(heap.items, owned)
    modifies heap, owned, write
    ensures Holds(heap.items, owned)
    ensures MergeStep(old(Values(heap.items)), i, k)
    ensures Values(heap.items) == After(old(Values(heap.items)), i, k)
    ensures write.bytes == old(write.bytes) + Unlines(old(Values(heap.items))[i][..k])
  {
    ghost var before := Values(heap.items);
    var chunk, limit;
    chunk, limit, i := PopWithLimit(heap, owned);
    label Popped:
    var exhausted, taken := WriteUpTo(chunk, limit, write);
    k := |taken|;
    ValuesFrame@Popped(heap.items);
    SplitAt(before[i], taken, chunk.Contents());
    PushBack(heap, owned, chunk, exhausted, before, i, k);
  }

  /** The loop of `run_merge_flush`, and of the final merge: write all chunks out, merged. */
  method MergeInto(merge: seq<SortedChunk>, write: Writer) returns (ghost out: Merging.Lines)
    requires Holds(merge, merge)
    modifies merge, write
    ensures MergeRun(old(Values(merge)), out)
    ensures write.bytes == old(write.bytes) + Unlines(out)
  {
    ghost var input := Values(merge);
    var heap := new BinaryHeap(merge);
    out := [];
    ContinuesStart(input);
    while heap.items != []
      invariant Holds(heap.items, merge)
      invariant Continues(input, out, Values(heap.items))
      invariant write.bytes == old(write.bytes) + Unlines(out)
      decreases Weight(Values(heap.items))
    {
      ghost var before := Values(heap.items);
      ghost var i, k := WriteStep(heap, merge, write);
      AfterShrinks(before, i, k);
      ContinuesStep(input, out, before, i, k);
      UnlinesConcat(out, before[i][..k]);
      Associative(old(write.bytes), Unlines(out), Unlines(before[i][..k]));
      out := out + before[i][..k];
    }
    ContinuesEnd(input, out);
  }

  /** Takes a popped chunk up to the limit, or all of it when there is none. */
  method TakeUpTo(chunk: SortedChunk, limit: Option<Line>) returns (taken: seq<Line>)
    requires chunk.Valid()
    modifies chunk
    ensures chunk.Valid() && old(chunk.Contents()) == taken + chunk.Contents()
    ensures |taken| == if limit.None? then |old(chunk.Contents())| else UpTo(old(chunk.Contents()), limit.value)
  {
    match limit {
      case Some(line) =>
        taken := chunk.TakeUntil(line);
      case None =>
        taken := chunk.TakeAll();
        assert taken + [] == taken;
    }
  }

  /** One turn of the loop of `run_merge`. */
  method TakeStep(heap: BinaryHeap, owned: seq<SortedChunk>)
    returns (taken: seq<Line>, ghost i: nat, ghost k: nat)
    requires heap.items != [] && Holds(heap.items, owned)
    modifies heap, owned
    ensures Holds(heap.items, owned)
    ensures MergeStep(old(Values(heap.items)), i, k)
    ensures Values(heap.items) == After(old(Values(heap.items)), i, k)
    ensures taken == old(Values(heap.items))[i][..k]
  {
    ghost var before := Values(heap.items);
    var chunk, limit;
    chunk, limit, i := PopWithLimit(heap, owned);
    label Popped:
    taken := TakeUpTo(chunk, limit);
    k := |taken|;
    ValuesFrame@Popped(heap.items);
    SplitAt(before[i], taken, chunk.Contents());
    PushBack(heap, owned, chunk, chunk.head.None?, before, i, k);
  }

  // ---------- the jobs ----------

  /** `run_sort`. */
  method RunSort(lines: seq<Line>, chunks: SharedChunks)
    modifies chunks
    ensures chunks.Pushed(old(chunks.items)) && fresh(chunks.Last()) && chunks.Last().Valid()
    ensures JobResult(Sort(lines), chunks.Last().View())
  {
    var chunk := new SortedChunk.New(SortLines(lines));
    chunks.Push(chunk);
  }

  /** The loop of `run_merge`. */
  method MergeToVec(merge: seq<SortedChunk>) returns (merged: seq<Line>)
    requires Holds(merge, merge)
    modifies merge
    ensures MergeRun(old(Values(merge)), merged)
  {
    ghost var input := Values(merge);
    var heap := new BinaryHeap(merge);
    merged := [];
    ContinuesStart(input);
    while heap.items != []
      invariant Holds(heap.items, merge)
      invariant Continues(input, merged, Values(heap.items))
      decreases Weight(Values(heap.items))
    {
      ghost var before := Values(heap.items);
      var taken, i, k := TakeStep(heap, merge);
      AfterShrinks(before, i, k);
      ContinuesStep(input, merged, before, i, k);
      merged := merged + taken;
    }
    ContinuesEnd(input, merged);
  }

  lemma MergeResult(views: seq<Chunk>, out: Merging.Lines)
    requires MergeRun(LinesOf(views), out)
    ensures JobResult(Merge(views), Chunk(out, true, false))
  {
  }

  /** `run_merge`. */
  method RunMerge(merge: seq<SortedChunk>, chunks: SharedChunks)
    requires Holds(merge, merge)
    modifies merge, chunks
    ensures chunks.Pushed(old(chunks.items)) && fresh(chunks.Last()) && chunks.Last().Valid()
    ensures JobResult(Merge(old(Views(merge))), chunks.Last().View())
  {
    ghost var views := Views(merge);
    var merged := MergeToVec(merge);
    var chunk := new SortedChunk.New(merged);
    chunk.merged := true;
    assert chunk.View() == Chunk(merged, true, false);
    MergeResult(views, merged);
    chunks.Push(chunk);
  }

  /** `run_merge_flush`: writes to a temporary file, and reads its lines back from the start. */
  method RunMergeFlush(merge: seq<SortedChunk>, chunks: SharedChunks)
    requires Holds(merge, merge)
    modifies merge, chunks
    ensures chunks.Pushed(old(chunks.items)) && fresh(chunks.Last()) && chunks.Last().Valid()
    ensures JobResult(MergeFlush(old(Views(merge))), chunks.Last().View())
  {
    var tempfile := new Writer();
    ghost var out := MergeInto(merge, tempfile);
    assert tempfile.bytes == Unlines(out);
    var chunk := new SortedChunk.FromFile(tempfile.bytes);
    chunks.Push(chunk);
  }

  /** The shared vector of finished chunks. */
  class SharedChunks {
    var items: seq<SortedChunk>

    ghost predicate Pushed(before: seq<SortedChunk>)
      reads this
    {
      |items| == |before| + 1 && items[..|before|] == before
    }

    function Last(): SortedChunk
      requires items != []
      reads this
    {
      items[|items| - 1]
    }

    method Push(chunk: SortedChunk)
      modifies this
      ensures items == old(items) + [chunk]
    {
      items := items + [chunk];
    }
  }
}
