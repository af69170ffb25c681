/** `ChunkedReader`: cuts a byte stream into chunks that end at a delimiter, whatever sizes the reads return. */
module ChunkedReader {
  import opened Bytes
  import opened Sequences

  /** Bail hands back the data read so far and the rest of the input. */
  datatype ChunkedItem<+R> = Chunk(data: seq<byte>) | Bail(data: seq<byte>, input: R)

  type Item = ChunkedItem<seq<byte>>

  // ---------- what the items are ----------

  /** The last position of b in s. */
  function LastIndex(s: seq<byte>, b: byte): (r: Option<nat>)
    ensures r.None? ==> b !in s
    ensures r.Some? ==> r.value < |s| && s[r.value] == b && b !in s[r.value + 1..]
  {
    if s == [] then None
    else if s[|s| - 1] == b then Some(|s| - 1)
    else
      var r := LastIndex(s[..|s| - 1], b);
      DropSnoc(s, if r.None? then 0 else r.value + 1);
      assert s[0..] == s;
      r
  }

  /**
   The next item of a stream, and what is left of it afterwards: the end of the stream without its
   trailing delimiter, or a full window of m bytes cut at its last delimiter, or a window without one.
   */
  function NextItem(stream: seq<byte>, delimiter: byte, m: nat): (r: (Item, Option<seq<byte>>))
    ensures r.1.Some? ==> |r.1.value| < |stream| && r.0.Chunk?
  {
    if |stream| < m then
      (Chunk(if EndsWith(stream, delimiter) then stream[..|stream| - 1] else stream), None)
    else
      var window := stream[..m];
      match LastIndex(window, delimiter)
      case None => (Bail(window, stream[m..]), None)
      case Some(p) => (Chunk(stream[..p]), Some(stream[p + 1..]))
  }

  predicate EndsWith(s: seq<byte>, b: byte) {
    s != [] && s[|s| - 1] == b
  }

  /** All items of a stream: a function of the stream, the delimiter and the chunk size alone. */
  function Items(stream: seq<byte>, delimiter: byte, m: nat): (r: seq<Item>)
    ensures r != []
    decreases |stream|
  {
    var (item, rest) := NextItem(stream, delimiter, m);
    match rest
    case None => [item]
    case Some(left) => [item] + Items(left, delimiter, m)
  }

  /** The last item is the end of the stream with its trailing delimiter removed. */
  predicate Stripped(stream: seq<byte>, delimiter: byte, m: nat)
    decreases |stream|
  {
    if |stream| < m then EndsWith(stream, delimiter) else
      match NextItem(stream, delimiter, m).1
      case None => false
      case Some(left) => Stripped(left, delimiter, m)
  }

  /** Joins the data of the items with delimiters, and appends the unread input of a bail. */
  function Rebuild(items: seq<Item>, delimiter: byte): seq<byte> {
    if items == [] then []
    else if |items| == 1 then ItemBytes(items[0])
    else ItemBytes(items[0]) + [delimiter] + Rebuild(items[1..], delimiter)
  }

  function ItemBytes(item: Item): seq<byte> {
    match item
    case Chunk(data) => data
    case Bail(data, rest) => data + rest
  }

  lemma NextItemRebuilds(stream: seq<byte>, delimiter: byte, m: nat)
    ensures var (item, rest) := NextItem(stream, delimiter, m);
            match rest
            case Some(left) => stream == ItemBytes(item) + [delimiter] + left
            case None => stream == ItemBytes(item) + if Stripped(stream, delimiter, m) then [delimiter] else []
  {
    if |stream| >= m {
      assert stream == stream[..m] + stream[m..];
    }
  }

  lemma RebuildCons(item: Item, items: seq<Item>, delimiter: byte)
    requires items != []
    ensures Rebuild([item] + items, delimiter) == ItemBytes(item) + [delimiter] + Rebuild(items, delimiter)
  {
    assert ([item] + items)[1..] == items;
  }

  /** The items rebuild the stream, up to one trailing delimiter; after a bail they rebuild it exactly. */
  lemma {:induction false} ItemsRebuild(stream: seq<byte>, delimiter: byte, m: nat)
    ensures var items := Items(stream, delimiter, m);
            && stream == Rebuild(items, delimiter) + (if Stripped(stream, delimiter, m) then [delimiter] else [])
            && (items[|items| - 1].Bail? ==> stream == Rebuild(items, delimiter))
    decreases |stream|
  {
    NextItemRebuilds(stream, delimiter, m);
    var (item, rest) := NextItem(stream, delimiter, m);
    if rest.None? {
      assert Items(stream, delimiter, m) == [item];
    } else {
      var left := rest.value;
      ItemsRebuild(left, delimiter, m);
      RebuildMore(item, Items(left, delimiter, m), left, delimiter,
                  if Stripped(left, delimiter, m) then [delimiter] else []);
      LastItemOf(item, Items(left, delimiter, m));
    }
  }

  /** One more item in front. */
  lemma RebuildMore(item: Item, items: seq<Item>, left: seq<byte>, delimiter: byte, end: seq<byte>)
    requires items != [] && left == Rebuild(items, delimiter) + end
    ensures ItemBytes(item) + [delimiter] + left == Rebuild([item] + items, delimiter) + end
    ensures left == Rebuild(items, delimiter) ==>
              ItemBytes(item) + [delimiter] + left == Rebuild([item] + items, delimiter)
  {
    RebuildCons(item, items, delimiter);
    Associative(ItemBytes(item) + [delimiter], Rebuild(items, delimiter), end);
  }

  lemma RebuildCases(stream: seq<byte>, delimiter: byte, m: nat)
    ensures var text := Rebuild(Items(stream, delimiter, m), delimiter);
            stream == if Stripped(stream, delimiter, m) then text + [delimiter] else text
  {
    ItemsRebuild(stream, delimiter, m);
    var text := Rebuild(Items(stream, delimiter, m), delimiter);
    assert text + [] == text;
  }

  /** Cutting comes to a full window that ends with the delimiter and is all that is left. */
  predicate EndsAtFullBuffer(stream: seq<byte>, delimiter: byte, m: nat)
    decreases |stream|
  {
    if |stream| == m && EndsWith(stream, delimiter) then true else
      match NextItem(stream, delimiter, m).1
      case None => false
      case Some(left) => EndsAtFullBuffer(left, delimiter, m)
  }

  predicate EndsInBail(stream: seq<byte>, delimiter: byte, m: nat) {
    var items := Items(stream, delimiter, m);
    items[|items| - 1].Bail?
  }

  /**
   A trailing delimiter is stripped from the last chunk except in four cases: the stream is empty, it
   has none, it has it exactly at the end of a full buffer, or it ends in a bail.
   */
  lemma {:induction false} StrippedIff(stream: seq<byte>, delimiter: byte, m: nat)
    requires m > 0
    ensures !Stripped(stream, delimiter, m) <==>
              || stream == []
              || !EndsWith(stream, delimiter)
              || EndsAtFullBuffer(stream, delimiter, m)
              || EndsInBail(stream, delimiter, m)
    decreases |stream|
  {
    var (item, rest) := NextItem(stream, delimiter, m);
    if rest.None? {
      assert Items(stream, delimiter, m) == [item];
    } else {
      var left := rest.value;
      StrippedIff(left, delimiter, m);
      LastItemOf(item, Items(left, delimiter, m));
      LeftEnds(stream, delimiter, m);
    }
  }

  lemma LastItemOf(item: Item, items: seq<Item>)
    requires items != []
    ensures ([item] + items)[|[item] + items| - 1] == items[|items| - 1]
  {
  }

  /** What a cut leaves ends as the stream does, unless the stream is one window that ends with the delimiter. */
  lemma LeftEnds(stream: seq<byte>, delimiter: byte, m: nat)
    requires m > 0 && NextItem(stream, delimiter, m).1.Some?
    ensures var left := NextItem(stream, delimiter, m).1.value;
            if left == [] then |stream| == m && EndsWith(stream, delimiter)
            else EndsWith(stream, delimiter) == EndsWith(left, delimiter)
                 && !(|stream| == m && EndsWith(stream, delimiter))
  {
    var window := stream[..m];
    var p := LastIndex(window, delimiter).value;
    assert forall k :: p < k < m ==> window[k] == window[p + 1..][k - p - 1];
    assert |stream| == m ==> window == stream;
  }

  /** All items but the last are chunks shorter than m. */
  lemma {:induction false} ItemsShape(stream: seq<byte>, delimiter: byte, m: nat, n: nat)
    requires n < |Items(stream, delimiter, m)|
    ensures var item := Items(stream, delimiter, m)[n];
            if n + 1 < |Items(stream, delimiter, m)| then item.Chunk? && |item.data| < m
            else |item.data| <= m && (item.Bail? ==> |item.data| == m && delimiter !in item.data)
    decreases |stream|
  {
    var (item, rest) := NextItem(stream, delimiter, m);
    if rest.Some? && n > 0 {
      ItemsShape(rest.value, delimiter, m, n - 1);
      assert Items(stream, delimiter, m)[n] == Items(rest.value, delimiter, m)[n - 1];
    }
  }

  lemma ItemsStep(stream: seq<byte>, delimiter: byte, m: nat)
    ensures var (item, rest) := NextItem(stream, delimiter, m);
            Items(stream, delimiter, m) ==
              [item] + match rest case None => [] case Some(left) => Items(left, delimiter, m)
  {
  }

  /** The bytes that these items were cut from, when another one follows: their data and a delimiter each. */
  function Consumed(items: seq<Item>): nat {
    if items == [] then 0 else |items[0].data| + 1 + Consumed(items[1..])
  }

  lemma ConsumedCons(item: Item, items: seq<Item>, n: nat)
    requires n <= |items|
    ensures Consumed(([item] + items)[..n + 1]) == |item.data| + 1 + Consumed(items[..n])
  {
    assert ([item] + items)[..n + 1][1..] == items[..n];
  }

  /** A place in what is left is a place in the stream. */
  lemma LaterSlice(stream: seq<byte>, d: nat, i: nat, j: nat)
    requires d <= |stream| && i <= j <= |stream| - d
    ensures stream[d..][i..j] == stream[d + i..d + j]
    ensures stream[d..][i..] == stream[d + i..]
  {
  }

  /**
   Item n starts where those before it end, and ends at the last delimiter of the window of m bytes that
   starts there.
   */
  ghost predicate CutAtLast(stream: seq<byte>, delimiter: byte, m: nat, items: seq<Item>, n: nat)
    requires n < |items|
  {
    var before, item := Consumed(items[..n]), items[n];
    var cut := before + |item.data|;
    && item.Chunk? && |item.data| < m && before + m <= |stream|
    && item.data == stream[before..cut] && stream[cut] == delimiter
    && forall k :: cut < k < before + m ==> stream[k] != delimiter
  }

  lemma FirstCut(stream: seq<byte>, delimiter: byte, m: nat, all: seq<Item>)
    requires NextItem(stream, delimiter, m).1.Some? && all != [] && all[0] == NextItem(stream, delimiter, m).0
    ensures CutAtLast(stream, delimiter, m, all, 0)
  {
    var window := stream[..m];
    var p := LastIndex(window, delimiter).value;
    assert all[..0] == [];
    assert forall k :: p < k < m ==> stream[k] == window[p + 1..][k - p - 1];
  }

  lemma LeftIsRest(stream: seq<byte>, delimiter: byte, m: nat)
    requires NextItem(stream, delimiter, m).1.Some?
    ensures var (item, rest) := NextItem(stream, delimiter, m);
            |item.data| < |stream| && rest.value == stream[|item.data| + 1..]
  {
  }

  /** An item cut from what the first item leaves is cut from the stream. */
  lemma LaterCut(stream: seq<byte>, delimiter: byte, m: nat, item: Item, items: seq<Item>, all: seq<Item>,
                 n: nat)
    requires |item.data| < |stream| && 0 < n <= |items| && all == [item] + items
    requires CutAtLast(stream[|item.data| + 1..], delimiter, m, items, n - 1)
    ensures CutAtLast(stream, delimiter, m, all, n)
  {
    var d, before := |item.data| + 1, Consumed(items[..n - 1]);
    ConsumedCons(item, items, n - 1);
    LaterSlice(stream, d, before, before + |items[n - 1].data|);
    assert forall k :: d <= k < d + before + m ==> stream[k] == stream[d..][k - d];
  }

  /** Another item follows the first one. */
  lemma MoreItems(stream: seq<byte>, delimiter: byte, m: nat, all: seq<Item>)
    returns (item: Item, left: seq<byte>, items: seq<Item>)
    requires all == Items(stream, delimiter, m) && |all| > 1
    ensures NextItem(stream, delimiter, m) == (item, Some(left))
    ensures |item.data| < |stream| && left == stream[|item.data| + 1..]
    ensures items == Items(left, delimiter, m) && all == [item] + items
  {
    LeftIsRest(stream, delimiter, m);
    item, left := NextItem(stream, delimiter, m).0, NextItem(stream, delimiter, m).1.value;
    items := Items(left, delimiter, m);
  }

  lemma {:induction false} ItemsCutAtLast(stream: seq<byte>, delimiter: byte, m: nat, all: seq<Item>, n: nat)
    requires all == Items(stream, delimiter, m) && n + 1 < |all|
    ensures CutAtLast(stream, delimiter, m, all, n)
    decreases |stream|
  {
    var item, left, items := MoreItems(stream, delimiter, m, all);
    if n == 0 {
      FirstCut(stream, delimiter, m, all);
    } else {
      ItemsCutAtLast(left, delimiter, m, items, n - 1);
      LaterCut(stream, delimiter, m, item, items, all, n);
    }
  }

  /**
   Greedy cutting: with `before` bytes consumed so far, every item but the last ends at the last
   delimiter among the next m bytes, all of which are there.
   */
  lemma CutsAreGreedy(stream: seq<byte>, delimiter: byte, m: nat, items: seq<Item>, n: nat)
    requires items == Items(stream, delimiter, m) && n + 1 < |items|
    ensures var before, item := Consumed(items[..n]), items[n];
            var p := |item.data|;
            && item.Chunk? && p < m && before + m <= |stream|
            && item.data == stream[before..before + p] && stream[before + p] == delimiter
            && forall k :: before + p < k < before + m ==> stream[k] != delimiter
  {
    ItemsCutAtLast(stream, delimiter, m, items, n);
  }

  /** The item takes all that is left from this place on. */
  ghost predicate TakesRest(stream: seq<byte>, delimiter: byte, m: nat, before: nat, item: Item) {
    && before <= |stream|
    && match item
       case Chunk(data) =>
         && |stream| - before < m
         && (stream[before..] == data + [delimiter] || (stream[before..] == data && !EndsWith(data, delimiter)))
       case Bail(data, rest) => |data| == m && delimiter !in data && stream[before..] == data + rest
  }

  lemma LaterRest(stream: seq<byte>, delimiter: byte, m: nat, item: Item, items: seq<Item>)
    requires |item.data| < |stream| && items != []
    requires TakesRest(stream[|item.data| + 1..], delimiter, m, Consumed(items[..|items| - 1]), items[|items| - 1])
    ensures TakesRest(stream, delimiter, m, Consumed(([item] + items)[..|items|]), items[|items| - 1])
  {
    var before := Consumed(items[..|items| - 1]);
    ConsumedCons(item, items, |items| - 1);
    LaterSlice(stream, |item.data| + 1, before, before);
  }

  lemma LoneRest(stream: seq<byte>, delimiter: byte, m: nat)
    requires NextItem(stream, delimiter, m).1.None?
    ensures TakesRest(stream, delimiter, m, 0, NextItem(stream, delimiter, m).0)
  {
    assert stream[0..] == stream;
  }

  lemma {:induction false} LastTakesRest(stream: seq<byte>, delimiter: byte, m: nat)
    ensures var items := Items(stream, delimiter, m);
            TakesRest(stream, delimiter, m, Consumed(items[..|items| - 1]), items[|items| - 1])
    decreases |stream|
  {
    ItemsStep(stream, delimiter, m);
    var (item, rest) := NextItem(stream, delimiter, m);
    if rest.None? {
      LoneRest(stream, delimiter, m);
      assert [item] + [] == [item] && [item][..0] == [];
    } else {
      var items := Items(rest.value, delimiter, m);
      LastTakesRest(rest.value, delimiter, m);
      LeftIsRest(stream, delimiter, m);
      LaterRest(stream, delimiter, m, item, items);
      LastItemOf(item, items);
    }
  }

  /**
   The last item is a chunk exactly when fewer than m bytes are left, and is these bytes without one
   trailing delimiter; else it is a window without a delimiter, with the unread input.
   */
  lemma LastItemTakesTheRest(stream: seq<byte>, delimiter: byte, m: nat, items: seq<Item>)
    requires items == Items(stream, delimiter, m)
    ensures var before, item := Consumed(items[..|items| - 1]), items[|items| - 1];
            && before <= |stream| && (item.Chunk? <==> |stream| - before < m)
            && match item
               case Chunk(data) =>
                 stream[before..] == if |stream| > before && stream[|stream| - 1] == delimiter then data + [delimiter]
                                     else data
               case Bail(data, rest) =>
                 |data| == m && delimiter !in data && stream[before..] == data + rest
  {
    LastTakesRest(stream, delimiter, m);
    var before := Consumed(items[..|items| - 1]);
    assert |stream| > before ==> stream[|stream| - 1] == stream[before..][|stream| - before - 1];
  }

  /** The items before the last one come from all of the stream. */
  ghost predicate ConsumesAll(stream: seq<byte>, items: seq<Item>)
    requires items != []
  {
    Consumed(items[..|items| - 1]) == |stream|
  }

  lemma ConsumesAllCons(stream: seq<byte>, left: seq<byte>, item: Item, items: seq<Item>)
    requires |stream| == |item.data| + 1 + |left| && items != []
    ensures ConsumesAll(stream, [item] + items) <==> ConsumesAll(left, items)
  {
    ConsumedCons(item, items, |items| - 1);
  }

  lemma OneConsumesNothing(stream: seq<byte>, item: Item)
    ensures ConsumesAll(stream, [item]) <==> stream == []
  {
    assert [item][..0] == [];
  }

  lemma ItemsOfNothing(delimiter: byte, m: nat)
    requires m > 0
    ensures Items([], delimiter, m) == [Chunk([])]
  {
  }

  /**
   The stream ends with the delimiter at the end of a full buffer if and only if the items before the
   last one consume all of it; the last one is then an empty chunk.
   */
  lemma {:induction false} EndsAtFullBufferIff(stream: seq<byte>, delimiter: byte, m: nat)
    requires m > 0
    ensures EndsAtFullBuffer(stream, delimiter, m) <==> stream != [] && ConsumesAll(stream, Items(stream, delimiter, m))
    decreases |stream|
  {
    var (item, rest) := NextItem(stream, delimiter, m);
    ItemsStep(stream, delimiter, m);
    if rest.None? {
      OneConsumesNothing(stream, item);
    } else {
      LeftEnds(stream, delimiter, m);
      LeftIsRest(stream, delimiter, m);
      ConsumesAllCons(stream, rest.value, item, Items(rest.value, delimiter, m));
      if rest.value == [] {
        ItemsOfNothing(delimiter, m);
        OneConsumesNothing([], Chunk([]));
      } else {
        EndsAtFullBufferIff(rest.value, delimiter, m);
      }
    }
  }

  // ---------- the reader ----------

  datatype ReadResult = Ok(n: nat) | Failed

  /** An input of which a read returns any number of bytes, at least one unless it is at its end. */
  class Source {
    var rest: seq<byte>

    constructor (bytes: seq<byte>)
      ensures rest == bytes
    {
      rest := bytes;
    }

    /** Reads into buf from position `from` on; 0 bytes means the end, or that there was no room. */
    method Read(buf: array<byte>, from: nat) returns (r: ReadResult)
      requires from <= buf.Length
      modifies this, buf
      ensures r.Ok? ==> from + r.n <= buf.Length && r.n <= |old(rest)|
      ensures r.Ok? ==> buf[..from] == old(buf[..from])
      ensures r.Ok? ==> buf[from..from + r.n] == old(rest)[..r.n] && rest == old(rest)[r.n..]
      ensures r.Ok? && r.n == 0 ==> old(rest) == [] || from == buf.Length
    {
      if * {
        return Failed;
      }
      var most := if |rest| <= buf.Length - from then |rest| else buf.Length - from;
      if most == 0 {
        return Ok(0);
      }
      var n: nat :| 1 <= n <= most;
      forall i | 0 <= i < n {
        buf[from + i] := rest[i];
      }
      rest := rest[n..];
      return Ok(n);
    }
  }

  datatype NextResult = End | IoError | Got(item: ChunkedItem<Source>)

  function View(item: ChunkedItem<Source>): Item
    reads if item.Bail? then {item.input} else {}
  {
    match item
    case Chunk(data) => Chunk(data)
    case Bail(data, input) => Bail(data, input.rest)
  }

  class Reader {
    var input: Source?
    var delimiter: byte
    var maxChunkSize: nat
    var nextBuf: seq<byte>

    /** The leftover is shorter than a chunk, so a read always has room and 0 bytes mean the end. */
    predicate Valid()
      reads this
    {
      maxChunkSize > 0 && (input != null ==> |nextBuf| < maxChunkSize)
    }

    /** The bytes still to be cut: the leftover and the unread input. */
    function Stream(): seq<byte>
      reads this, input
      requires input != null
    {
      nextBuf + input.rest
    }

    constructor (source: Source, delim: byte, size: nat)
      requires size > 0
      ensures Valid() && input == source && delimiter == delim && maxChunkSize == size
      ensures Stream() == source.rest
    {
      input, delimiter, maxChunkSize, nextBuf := source, delim, size, [];
    }

    /** Reads until the buffer is full or the input ends. */
    method Fill(source: Source, buf: array<byte>, start: nat) returns (failed: bool, pos: nat, exhausted: bool)
      requires start < buf.Length
      modifies source, buf
      ensures !failed ==> start <= pos <= buf.Length
      ensures !failed ==> old(buf[..start] + source.rest) == buf[..pos] + source.rest
      ensures !failed ==> if exhausted then pos < buf.Length && source.rest == [] else pos == buf.Length
    {
      failed, pos, exhausted := false, start, false;
      while true
        invariant start <= pos < buf.Length
        invariant old(buf[..start] + source.rest) == buf[..pos] + source.rest
        decreases |source.rest|
      {
        ghost var rest := source.rest;
        ghost var filled := buf[..pos];
        var r := source.Read(buf, pos);
        if r.Failed? {
          failed := true;
          return;
        }
        if r.n == 0 {
          exhausted := true;
          return;
        }
        assert buf[..pos + r.n] == filled + rest[..r.n];
        assert filled + rest[..r.n] + source.rest == filled + rest;
        pos := pos + r.n;
        if pos == buf.Length {
          return;
        }
      }
    }

    /** Turns a full buffer, or the end of the input, into an item. */
    method Emit(source: Source, data: seq<byte>, exhausted: bool) returns (item: ChunkedItem<Source>)
      requires maxChunkSize > 0 && input == null && nextBuf == []
      requires if exhausted then |data| < maxChunkSize && source.rest == [] else |data| == maxChunkSize
      modifies this
      ensures Valid() && delimiter == old(delimiter) && maxChunkSize == old(maxChunkSize)
      ensures var (expected, rest) := NextItem(data + source.rest, delimiter, maxChunkSize);
              && View(item) == expected
              && (rest.None? ==> input == null)
              && (rest.Some? ==> input == source && Stream() == rest.value)
    {
      ghost var stream := data + source.rest;
      if exhausted {
        assert data == stream;
        return Chunk(if EndsWith(data, delimiter) then data[..|data| - 1] else data);
      }
      assert data == stream[..maxChunkSize] && source.rest == stream[maxChunkSize..];
      match LastIndex(data, delimiter) {
        case None =>
          return Bail(data, source);
        case Some(p) =>
          nextBuf := data[p + 1..];
          input := source;
          assert nextBuf + source.rest == stream[p + 1..];
          return Chunk(data[..p]);
      }
    }

    method Next() returns (r: NextResult)
      requires Valid()
      modifies this, input
      ensures Valid() && delimiter == old(delimiter) && maxChunkSize == old(maxChunkSize)
      ensures old(input) == null <==> r == End
      ensures !r.Got? ==> input == null
      ensures r.Got? ==>
        var (item, rest) := NextItem(old(Stream()), delimiter, maxChunkSize);
        && View(r.item) == item
        && (rest.None? ==> input == null)
        && (rest.Some? ==> input == old(input) && Stream() == rest.value)
    {
      if input == null {
        return End;
      }
      var source := input;
      input := null;
      var start := |nextBuf|;
      var buf := Resize(nextBuf, maxChunkSize);
      nextBuf := [];
      var failed, pos, exhausted := Fill(source, buf, start);
      if failed {
        return IoError;
      }
      var item := Emit(source, buf[..pos], exhausted);
      return Got(item);
    }
  }

  /** The leftover, grown to the size of the buffer. */
  method Resize(leftover: seq<byte>, size: nat) returns (buf: array<byte>)
    requires |leftover| <= size
    ensures fresh(buf) && buf.Length == size && buf[..|leftover|] == leftover
  {
    buf := new byte[size](i requires 0 <= i < size => if i < |leftover| then leftover[i] else 0);
  }

  /** One more item has been read. */
  lemma ItemsTurn(all: seq<Item>, items: seq<Item>, stream: seq<byte>, delimiter: byte, m: nat)
    requires all == items + Items(stream, delimiter, m)
    ensures var (item, rest) := NextItem(stream, delimiter, m);
            all == items + [item] + match rest case None => [] case Some(left) => Items(left, delimiter, m)
  {
    ItemsStep(stream, delimiter, m);
    var (item, rest) := NextItem(stream, delimiter, m);
    Associative(items, [item], match rest case None => [] case Some(left) => Items(left, delimiter, m));
  }

  /** Drains a reader.  An I/O error ends the items early; otherwise they are those of the stream. */
  method ReadAll(source: Source, delimiter: byte, m: nat) returns (items: seq<Item>, failed: bool)
    requires m > 0
    modifies source
    ensures items <= Items(old(source.rest), delimiter, m)
    ensures !failed ==> items == Items(old(source.rest), delimiter, m)
  {
    ghost var all := Items(source.rest, delimiter, m);
    var reader := new Reader(source, delimiter, m);
    items, failed := [], false;
    while true
      invariant reader.Valid() && reader.delimiter == delimiter && reader.maxChunkSize == m
      invariant reader.input == null || reader.input == source
      invariant all == items + if reader.input == null then [] else Items(reader.Stream(), delimiter, m)
      decreases if reader.input == null then 0 else 1 + |reader.Stream()|
    {
      ghost var before := if reader.input == null then [] else reader.Stream();
      var r := reader.Next();
      match r {
        case End => return;
        case IoError =>
          failed := true;
          return;
        case Got(item) =>
          ItemsTurn(all, items, before, delimiter, m);
          items := items + [View(item)];
      }
    }
  }
}
