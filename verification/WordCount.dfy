/** `wc`: counting chunks in parallel and adding the results up, against counting the whole input. */
module WordCount {
  import opened Bytes
  import opened Sequences
  import opened ChunkedReader
  import opened Utf8
  import P = Pool

  // ---------- bytes and lines ----------

  /** `count_bytes`: bytes and newlines, and one of each for the delimiter after the chunk. */
  method CountBytes(input: seq<byte>) returns (bytes: nat, lines: nat)
    ensures bytes == |input| + 1 && lines == CountByte(input, NEWLINE) + 1
  {
    bytes, lines := 0, 0;
    for n := 0 to |input|
      invariant bytes == n && lines == CountByte(input[..n], NEWLINE)
    {
      assert input[..n + 1] == input[..n] + [input[n]];
      CountByteConcat(input[..n], [input[n]], NEWLINE);
      bytes := bytes + 1;
      if input[n] == NEWLINE {
        lines := lines + 1;
      }
    }
    assert input[..|input|] == input;
    bytes := bytes + 1;
    lines := lines + 1;
  }

  function ByteCountOf(item: Item): nat {
    |ItemBytes(item)| + 1
  }

  function LineCountOf(item: Item): nat {
    CountByte(ItemBytes(item), NEWLINE) + 1
  }

  /** The sum of a count over the items of jobs, as left behind by `fetch_add` in their order. */
  function Sum(items: seq<Item>, count: Item -> nat): nat {
    if items == [] then 0 else count(items[0]) + Sum(items[1..], count)
  }

  /** `WcBytesJob::run` on two shared counters. */
  class Counters {
    var bytes: nat
    var lines: nat

    constructor ()
      ensures bytes == 0 && lines == 0
    {
      bytes, lines := 0, 0;
    }

    method RunJob(item: Item)
      modifies this
      ensures bytes == old(bytes) + ByteCountOf(item) && lines == old(lines) + LineCountOf(item)
    {
      var b, l := CountBytes(ItemBytes(item));
      bytes := bytes + b;
      lines := lines + l;
    }
  }

  lemma {:induction false} SumConcat(a: seq<Item>, b: seq<Item>, count: Item -> nat)
    ensures Sum(a + b, count) == Sum(a, count) + Sum(b, count)
  {
    if a == [] {
      assert a + b == b;
    } else {
      assert (a + b)[1..] == a[1..] + b;
      SumConcat(a[1..], b, count);
    }
  }

  lemma SumSnoc(items: seq<Item>, item: Item, count: Item -> nat)
    ensures Sum(items + [item], count) == Sum(items, count) + count(item)
  {
    SumConcat(items, [item], count);
    var one := [item];
    assert one[1..] == [];
  }

  /** The order in which jobs add their counts does not matter. */
  lemma {:induction false} SumPermuted(a: seq<Item>, b: seq<Item>, count: Item -> nat)
    requires multiset(a) == multiset(b)
    ensures Sum(a, count) == Sum(b, count)
    decreases |a|
  {
    if a == [] {
      assert |b| == |multiset(b)| == 0;
    } else {
      assert a[0] in multiset(b);
      var k :| 0 <= k < |b| && b[k] == a[0];
      var rest := b[..k] + b[k + 1..];
      RemoveAt(b, k);
      MultisetOfTail(a);
      SumPermuted(a[1..], rest, count);
      SumConcat(b[..k], [b[k]] + b[k + 1..], count);
      SumConcat(b[..k], b[k + 1..], count);
      assert ([b[k]] + b[k + 1..])[1..] == b[k + 1..];
    }
  }

  lemma RemoveAt(b: seq<Item>, k: nat)
    requires k < |b|
    ensures b == b[..k] + ([b[k]] + b[k + 1..])
    ensures multiset(b[..k] + b[k + 1..]) == multiset(b) - multiset{b[k]}
  {
    assert b == b[..k] + [b[k]] + b[k + 1..];
    assert multiset(b) == multiset(b[..k]) + multiset{b[k]} + multiset(b[k + 1..]);
  }

  /** Runs jobs one after the other, in the given order. */
  method RunJobs(jobs: seq<Item>) returns (bytes: nat, lines: nat)
    ensures bytes == Sum(jobs, ByteCountOf) && lines == Sum(jobs, LineCountOf)
  {
    var counters := new Counters();
    for n := 0 to |jobs|
      invariant counters.bytes == Sum(jobs[..n], ByteCountOf) && counters.lines == Sum(jobs[..n], LineCountOf)
    {
      assert jobs[..n + 1] == jobs[..n] + [jobs[n]];
      SumSnoc(jobs[..n], jobs[n], ByteCountOf);
      SumSnoc(jobs[..n], jobs[n], LineCountOf);
      counters.RunJob(jobs[n]);
    }
    assert jobs[..|jobs|] == jobs;
    bytes, lines := counters.bytes, counters.lines;
  }

  /** What the two totals have too much: one each, unless the final newline was stripped from the last chunk. */
  function Excess(stream: seq<byte>, m: nat): nat {
    if Stripped(stream, NEWLINE, m) then 0 else 1
  }

  /** The four cases in which they have one too much. */
  lemma ExcessCases(stream: seq<byte>, m: nat)
    requires m > 0
    ensures Excess(stream, m) == 1 <==>
              || stream == []
              || !EndsWith(stream, NEWLINE)
              || EndsAtFullBuffer(stream, NEWLINE, m)
              || EndsInBail(stream, NEWLINE, m)
  {
    StrippedIff(stream, NEWLINE, m);
  }

  lemma CountAround(data: seq<byte>, rest: seq<byte>)
    ensures CountByte(data + [NEWLINE] + rest, NEWLINE) == CountByte(data, NEWLINE) + 1 + CountByte(rest, NEWLINE)
  {
    CountByteConcat(data + [NEWLINE], rest, NEWLINE);
    CountByteConcat(data, [NEWLINE], NEWLINE);
  }

  lemma SumCons(item: Item, items: seq<Item>, count: Item -> nat)
    ensures Sum([item] + items, count) == count(item) + Sum(items, count)
  {
    assert ([item] + items)[1..] == items;
  }

  /** One file: both sums exceed the true counts by the same amount. */
  lemma {:induction false} FileExcess(stream: seq<byte>, m: nat)
    ensures Sum(Items(stream, NEWLINE, m), ByteCountOf) == |stream| + Excess(stream, m)
    ensures Sum(Items(stream, NEWLINE, m), LineCountOf) == CountByte(stream, NEWLINE) + Excess(stream, m)
    decreases |stream|
  {
    var (item, rest) := NextItem(stream, NEWLINE, m);
    NextItemRebuilds(stream, NEWLINE, m);
    if rest.Some? {
      var items := Items(rest.value, NEWLINE, m);
      FileExcess(rest.value, m);
      CountAround(ItemBytes(item), rest.value);
      SumCons(item, items, ByteCountOf);
      SumCons(item, items, LineCountOf);
    } else {
      SumCons(item, [], ByteCountOf);
      SumCons(item, [], LineCountOf);
      assert [item] + [] == [item];
      CountByteConcat(ItemBytes(item), [NEWLINE], NEWLINE);
      assert ItemBytes(item) + [] == ItemBytes(item);
    }
  }

  /** The jobs for all inputs. */
  function AllItems(files: seq<seq<byte>>, m: nat): seq<Item> {
    if files == [] then [] else Items(files[0], NEWLINE, m) + AllItems(files[1..], m)
  }

  function TotalBytes(files: seq<seq<byte>>): nat {
    if files == [] then 0 else |files[0]| + TotalBytes(files[1..])
  }

  function TotalLines(files: seq<seq<byte>>): nat {
    if files == [] then 0 else CountByte(files[0], NEWLINE) + TotalLines(files[1..])
  }

  function TotalExcess(files: seq<seq<byte>>, m: nat): nat {
    if files == [] then 0 else Excess(files[0], m) + TotalExcess(files[1..], m)
  }

  /** The jobs are those of every input, in order, ... */
  lemma {:induction false} AllItemsOf(a: seq<seq<byte>>, file: seq<byte>, b: seq<seq<byte>>, m: nat)
    ensures AllItems([file], m) == Items(file, NEWLINE, m)
    ensures AllItems(a + b, m) == AllItems(a, m) + AllItems(b, m)
    decreases |a|
  {
    assert [file][1..] == [];
    if a == [] {
      assert a + b == b;
    } else {
      assert (a + b)[1..] == a[1..] + b;
      AllItemsOf(a[1..], file, b, m);
      Associative(Items(a[0], NEWLINE, m), AllItems(a[1..], m), AllItems(b, m));
    }
  }

  /** ... and every input counts once in the totals: its bytes, its newlines and what it has too much. */
  lemma {:induction false} TotalsOf(a: seq<seq<byte>>, file: seq<byte>, b: seq<seq<byte>>, m: nat)
    ensures TotalBytes([file]) == |file| && TotalBytes(a + b) == TotalBytes(a) + TotalBytes(b)
    ensures TotalLines([file]) == multiset(file)[10] && TotalLines(a + b) == TotalLines(a) + TotalLines(b)
    ensures TotalExcess([file], m) == (if Stripped(file, 10, m) then 0 else 1)
    ensures TotalExcess(a + b, m) == TotalExcess(a, m) + TotalExcess(b, m)
    decreases |a|
  {
    assert [file][1..] == [];
    CountIsMultiplicity(file, NEWLINE);
    if a == [] {
      assert a + b == b;
    } else {
      assert (a + b)[1..] == a[1..] + b;
      TotalsOf(a[1..], file, b, m);
    }
  }

  lemma {:induction false} FilesExcess(files: seq<seq<byte>>, m: nat)
    ensures Sum(AllItems(files, m), ByteCountOf) == TotalBytes(files) + TotalExcess(files, m)
    ensures Sum(AllItems(files, m), LineCountOf) == TotalLines(files) + TotalExcess(files, m)
  {
    if files == [] {
    } else {
      FileExcess(files[0], m);
      FilesExcess(files[1..], m);
      SumConcat(Items(files[0], NEWLINE, m), AllItems(files[1..], m), ByteCountOf);
      SumConcat(Items(files[0], NEWLINE, m), AllItems(files[1..], m), LineCountOf);
    }
  }

  /** A finished run of the pool on these jobs, with any number of workers and any interleaving. */
  ghost predicate Finished(jobs: seq<Item>, size: nat, run: seq<P.Client<Item>>, early: seq<bool>) {
    && size >= 1 && P.IsRun(jobs, size, run, early)
    && !run[|early|].pool.open && P.Joined(run[|early|].pool)
  }

  /**
   `wc -c -l` in any interleaving: the totals exceed the true counts of bytes and of newlines by the
   same amount, the number of inputs whose last item is not a chunk with a stripped newline.
   */
  lemma WcBytesTotals(files: seq<seq<byte>>, m: nat, size: nat, run: seq<P.Client<Item>>, early: seq<bool>)
    requires Finished(AllItems(files, m), size, run, early)
    ensures Sum(run[|early|].pool.completed, ByteCountOf) == TotalBytes(files) + TotalExcess(files, m)
    ensures Sum(run[|early|].pool.completed, LineCountOf) == TotalLines(files) + TotalExcess(files, m)
  {
    var jobs := AllItems(files, m);
    P.FinishedRun(jobs, size, run, early);
    SumPermuted(run[|early|].pool.completed, jobs, ByteCountOf);
    SumPermuted(run[|early|].pool.completed, jobs, LineCountOf);
    FilesExcess(files, m);
  }

  // ---------- words ----------

  /** The ASCII whitespace test of the source: bytes 9 to 14, so a space is not whitespace. */
  predicate IsSpace(c: Char) {
    |c| == 1 && 9 <= c[0] <= 14
  }

  predicate IsNewline(c: Char) {
    c == [NEWLINE]
  }

  /** A maximal run of non-whitespace characters starts at n. */
  predicate StartsWord(chars: seq<Char>, n: nat)
    requires n < |chars|
  {
    !IsSpace(chars[n]) && (n == 0 || IsSpace(chars[n - 1]))
  }

  function WordStarts(chars: seq<Char>): set<nat> {
    set n: nat | n < |chars| && StartsWord(chars, n)
  }

  /** The number of words: of maximal runs of non-whitespace characters. */
  function Words(chars: seq<Char>): nat {
    |WordStarts(chars)|
  }

  predicate InWord(chars: seq<Char>) {
    chars != [] && !IsSpace(chars[|chars| - 1])
  }

  lemma StartsWordSnoc(chars: seq<Char>, c: Char, n: nat)
    requires n <= |chars|
    ensures n < |chars| ==> StartsWord(chars + [c], n) == StartsWord(chars, n)
    ensures n == |chars| ==> StartsWord(chars + [c], n) == (!IsSpace(c) && !InWord(chars))
  {
  }

  lemma WordStartsSnoc(chars: seq<Char>, c: Char)
    ensures WordStarts(chars + [c]) == WordStarts(chars) + if !IsSpace(c) && !InWord(chars) then {|chars|} else {}
  {
    forall n: nat | n <= |chars|
      ensures n in WordStarts(chars + [c]) <==>
              n in WordStarts(chars) || (n == |chars| && !IsSpace(c) && !InWord(chars))
    {
      StartsWordSnoc(chars, c, n);
    }
  }

  lemma WordsSnoc(chars: seq<Char>, c: Char)
    ensures Words(chars + [c]) == Words(chars) + if !IsSpace(c) && !InWord(chars) then 1 else 0
  {
    WordStartsSnoc(chars, c);
  }

  function TotalWidth(chars: seq<Char>): nat {
    if chars == [] then 0 else TotalWidth(chars[..|chars| - 1]) + |chars[|chars| - 1]|
  }

  function Newlines(chars: seq<Char>): nat {
    if chars == [] then 0 else Newlines(chars[..|chars| - 1]) + if IsNewline(chars[|chars| - 1]) then 1 else 0
  }

  predicate EndsInNewline(chars: seq<Char>) {
    chars != [] && IsNewline(chars[|chars| - 1])
  }

  /** 1 unless the text ends in a newline. */
  function Last(chars: seq<Char>): nat {
    if EndsInNewline(chars) then 0 else 1
  }

  /** `count_all`, without its line lengths: a word is counted where it ends. */
  method CountAll(chars: seq<Char>) returns (bytes: nat, count: nat, words: nat, lines: nat)
    ensures words == Words(chars)
    ensures bytes == TotalWidth(chars) + Last(chars) && count == |chars| + Last(chars)
    ensures lines == Newlines(chars) + Last(chars)
  {
    bytes, count, words, lines := 0, 0, 0, 0;
    var prevWasWhitespace, prevWasNewline := true, false;
    for n := 0 to |chars|
      invariant bytes == TotalWidth(chars[..n]) && count == n && lines == Newlines(chars[..n])
      invariant prevWasWhitespace == !InWord(chars[..n]) && prevWasNewline == EndsInNewline(chars[..n])
      invariant words + (if prevWasWhitespace then 0 else 1) == Words(chars[..n])
    {
      var c := chars[n];
      assert chars[..n + 1] == chars[..n] + [c];
      assert chars[..n + 1][..n] == chars[..n];
      WordsSnoc(chars[..n], c);
      bytes := bytes + |c|;
      count := count + 1;
      if |c| == 1 && 9 <= c[0] <= 14 {
        if !prevWasWhitespace {
          words := words + 1;
          prevWasWhitespace := true;
        }
        if c[0] == 10 {
          lines := lines + 1;
          prevWasNewline := true;
        } else {
          prevWasNewline := false;
        }
      } else {
        prevWasWhitespace := false;
        prevWasNewline := false;
      }
    }
    assert chars[..|chars|] == chars;
    if !prevWasNewline {
      count := count + 1;
      bytes := bytes + 1;
      lines := lines + 1;
    }
    if !prevWasWhitespace {
      words := words + 1;
    }
  }

  /** No word crosses one of the bytes 9 to 14: counting words commutes with cutting at them. */
  lemma {:induction false} WordsAtSpace(a: seq<Char>, space: byte, b: seq<Char>)
    requires 9 <= space <= 14
    ensures Words(a + [[space]] + b) == Words(a) + Words(b)
    decreases |b|
  {
    if b == [] {
      assert a + [[space]] + [] == a + [[space]];
      WordsSnoc(a, [space]);
      assert WordStarts([]) == {};
    } else {
      var front, c := b[..|b| - 1], b[|b| - 1];
      WordsAtSpace(a, space, front);
      var before := a + [[space]] + front;
      assert a + [[space]] + b == before + [c];
      assert b == front + [c];
      WordsSnoc(before, c);
      WordsSnoc(front, c);
      assert before[|before| - 1] == if front == [] then [space] else front[|front| - 1];
    }
  }

  /** Any other character is part of a word, ... */
  lemma WordsOfOne(c: Char)
    ensures Words([]) == 0
    ensures Words([c]) == if |c| == 1 && 9 <= c[0] <= 14 then 0 else 1
  {
    assert WordStarts([]) == {};
    WordsSnoc([], c);
    assert [] + [c] == [c];
  }

  /** ... and where two such characters meet, the words on both sides are one. */
  lemma {:induction false} WordsJoin(a: seq<Char>, b: seq<Char>)
    requires a != [] && !(|a[|a| - 1]| == 1 && 9 <= a[|a| - 1][0] <= 14)
    requires b != [] && !(|b[0]| == 1 && 9 <= b[0][0] <= 14)
    ensures Words(a + b) + 1 == Words(a) + Words(b)
    decreases |b|
  {
    if |b| == 1 {
      assert b == [b[0]];
      WordsSnoc(a, b[0]);
      WordsOfOne(b[0]);
    } else {
      var front, c := b[..|b| - 1], b[|b| - 1];
      WordsJoin(a, front);
      assert b == front + [c];
      assert a + b == (a + front) + [c];
      WordsSnoc(a + front, c);
      WordsSnoc(front, c);
      assert (a + front)[|a + front| - 1] == front[|front| - 1];
    }
  }

  /** So such a character between two others joins their words. */
  lemma WordsAround(a: seq<Char>, c: Char, b: seq<Char>)
    requires a != [] && !(|a[|a| - 1]| == 1 && 9 <= a[|a| - 1][0] <= 14)
    requires !(|c| == 1 && 9 <= c[0] <= 14)
    requires b != [] && !(|b[0]| == 1 && 9 <= b[0][0] <= 14)
    ensures Words(a + [c] + b) + 1 == Words(a) + Words(b)
  {
    WordsOfOne(c);
    WordsJoin(a, [c]);
    assert (a + [c])[|a + [c]| - 1] == c;
    WordsJoin(a + [c], b);
  }

  /** The words of one item, as its job counts them. */
  function WordCountOf(item: Item): nat {
    match Chars(ItemBytes(item))
    case Some(chars) => Words(chars)
    case None => 0
  }

  lemma {:induction false} ItemsWords(items: seq<Item>)
    requires AllWellFormed(items)
    ensures Sum(items, WordCountOf) == Words(RebuildChars(items))
    decreases |items|
  {
    if items == [] {
      assert WordStarts([]) == {};
    } else {
      WellFormedChars(ItemBytes(items[0]));
      if |items| == 1 {
        assert items[1..] == [];
      } else {
        assert forall n :: 0 <= n < |items[1..]| ==> items[1..][n] == items[n + 1];
        ItemsWords(items[1..]);
        WordsAtSpace(Chars(ItemBytes(items[0])).value, NEWLINE, RebuildChars(items[1..]));
      }
    }
  }

  /** One file: the words of the chunks are the words of the text, and no job panics. */
  lemma FileWords(stream: seq<byte>, m: nat)
    requires WellFormed(stream)
    ensures AllWellFormed(Items(stream, NEWLINE, m)) && Chars(stream).Some?
    ensures Sum(Items(stream, NEWLINE, m), WordCountOf) == Words(Chars(stream).value)
  {
    var items := Items(stream, NEWLINE, m);
    ItemsDecode(stream, m);
    ItemsWords(items);
    WordsSnoc(RebuildChars(items), [NEWLINE]);
  }

  function TotalWords(files: seq<seq<byte>>): nat {
    if files == [] then 0 else
      TotalWords(files[1..]) + match Chars(files[0]) case Some(chars) => Words(chars) case None => 0
  }

  /** Every input counts once. */
  lemma {:induction false} TotalWordsOf(a: seq<seq<byte>>, file: seq<byte>, b: seq<seq<byte>>)
    requires Chars(file).Some?
    ensures TotalWords([file]) == Words(Chars(file).value)
    ensures TotalWords(a + b) == TotalWords(a) + TotalWords(b)
    decreases |a|
  {
    assert [file][1..] == [];
    if a == [] {
      assert a + b == b;
    } else {
      assert (a + b)[1..] == a[1..] + b;
      TotalWordsOf(a[1..], file, b);
    }
  }

  lemma {:induction false} FilesWords(files: seq<seq<byte>>, m: nat)
    requires forall n :: 0 <= n < |files| ==> WellFormed(files[n])
    ensures Sum(AllItems(files, m), WordCountOf) == TotalWords(files)
  {
    if files == [] {
    } else {
      FileWords(files[0], m);
      FilesWords(files[1..], m);
      SumConcat(Items(files[0], NEWLINE, m), AllItems(files[1..], m), WordCountOf);
    }
  }

  /** `wc -w` in any interleaving: the total is the number of words of the inputs, for any chunk size. */
  lemma WcWordsTotal(files: seq<seq<byte>>, m: nat, size: nat, run: seq<P.Client<Item>>, early: seq<bool>)
    requires forall n :: 0 <= n < |files| ==> WellFormed(files[n])
    requires Finished(AllItems(files, m), size, run, early)
    ensures Sum(run[|early|].pool.completed, WordCountOf) == TotalWords(files)
  {
    var jobs := AllItems(files, m);
    P.FinishedRun(jobs, size, run, early);
    SumPermuted(run[|early|].pool.completed, jobs, WordCountOf);
    FilesWords(files, m);
  }

  // ---------- the other totals of `count_all` ----------

  /** The bytes, characters and lines of one item as `count_all` counts them. */
  function AllBytesOf(item: Item): nat {
    match Chars(ItemBytes(item))
    case Some(chars) => TotalWidth(chars) + Last(chars)
    case None => 0
  }

  function AllCharsOf(item: Item): nat {
    match Chars(ItemBytes(item))
    case Some(chars) => |chars| + Last(chars)
    case None => 0
  }

  function AllLinesOf(item: Item): nat {
    match Chars(ItemBytes(item))
    case Some(chars) => Newlines(chars) + Last(chars)
    case None => 0
  }

  /** One more character has been read. */
  lemma DecodeTurn(all: seq<Char>, chars: seq<Char>, bytes: seq<byte>)
    requires bytes != [] && Chars(bytes).Some? && all == chars + Chars(bytes).value
    ensures var r := NextChar(bytes);
            && r.GotChar? && Chars(bytes[|r.encoded|..]).Some?
            && all == chars + [r.encoded] + Chars(bytes[|r.encoded|..]).value
  {
    var encoded := NextChar(bytes).encoded;
    Associative(chars, [encoded], Chars(bytes[|encoded|..]).value);
  }

  /** The characters that the iterator yields on well-formed text: it reaches no panic. */
  method Decode(text: seq<byte>) returns (chars: seq<Char>)
    requires WellFormed(text)
    ensures Chars(text) == Some(chars)
  {
    WellFormedChars(text);
    ghost var all := Chars(text).value;
    var iter := new BytesToChars(text);
    chars := [];
    while iter.bytes != []
      invariant Chars(iter.bytes).Some? && all == chars + Chars(iter.bytes).value
      decreases |iter.bytes|
    {
      DecodeTurn(all, chars, iter.bytes);
      var r := iter.Next();
      chars := chars + [r.encoded];
    }
    assert chars + [] == chars;
  }

  /** `WcAllJob::run`, without line lengths, on an item whose text is well-formed. */
  method RunAllJob(item: Item) returns (bytes: nat, count: nat, words: nat, lines: nat)
    requires WellFormed(ItemBytes(item))
    ensures bytes == AllBytesOf(item) && count == AllCharsOf(item)
    ensures words == WordCountOf(item) && lines == AllLinesOf(item)
  {
    var chars := Decode(ItemBytes(item));
    bytes, count, words, lines := CountAll(chars);
  }

  lemma NewlineInChar(c: Char)
    requires IsChar(c)
    ensures CountByte(c, NEWLINE) == if IsNewline(c) then 1 else 0
    ensures EndsWith(c, NEWLINE) == IsNewline(c)
  {
    if |c| > 1 {
      assert NEWLINE !in c by {
        if NEWLINE in c {
          var k :| 0 <= k < |c| && c[k] == NEWLINE;
          if k > 0 {
            NoNewlineInside(c, k);
          }
        }
      }
      CountByteZero(c, NEWLINE);
    }
  }

  lemma {:induction false} ConcatSnoc(chars: seq<Char>, c: Char)
    ensures Concat(chars + [c]) == Concat(chars) + c
  {
    if chars == [] {
      assert [] + [c] == [c] + [];
      ConcatCons(c, []);
    } else {
      assert chars + [c] == [chars[0]] + (chars[1..] + [c]);
      ConcatCons(chars[0], chars[1..] + [c]);
      ConcatSnoc(chars[1..], c);
    }
  }

  /** The newlines among the characters of a text are its newline bytes. */
  lemma {:induction false} NewlinesOfText(chars: seq<Char>)
    requires forall n :: 0 <= n < |chars| ==> IsChar(chars[n])
    ensures Newlines(chars) == CountByte(Concat(chars), NEWLINE)
    ensures EndsInNewline(chars) == EndsWith(Concat(chars), NEWLINE)
    decreases |chars|
  {
    if chars == [] {
    } else {
      var front, c := chars[..|chars| - 1], chars[|chars| - 1];
      assert chars == front + [c];
      ConcatSnoc(front, c);
      NewlinesOfText(front);
      NewlineInChar(c);
      CountByteConcat(Concat(front), c, NEWLINE);
    }
  }

  lemma {:induction false} WidthOfText(chars: seq<Char>)
    ensures TotalWidth(chars) == |Concat(chars)|
    decreases |chars|
  {
    if chars == [] {
    } else {
      var front, c := chars[..|chars| - 1], chars[|chars| - 1];
      assert chars == front + [c];
      ConcatSnoc(front, c);
      WidthOfText(front);
    }
  }

  function EndingInNewline(item: Item): nat {
    if EndsWith(ItemBytes(item), NEWLINE) then 1 else 0
  }

  /** One item: `count_all` and `count_bytes` differ by the newline that is not counted when the item ends in one. */
  lemma ItemTotals(item: Item)
    requires WellFormed(ItemBytes(item))
    ensures Chars(ItemBytes(item)).Some?
    ensures AllBytesOf(item) + EndingInNewline(item) == ByteCountOf(item)
    ensures AllLinesOf(item) + EndingInNewline(item) == LineCountOf(item)
    ensures AllCharsOf(item) + EndingInNewline(item) == |Chars(ItemBytes(item)).value| + 1
  {
    WellFormedChars(ItemBytes(item));
    NewlinesOfText(Chars(ItemBytes(item)).value);
    WidthOfText(Chars(ItemBytes(item)).value);
  }

  /**
   On well-formed text the totals of `count_all` are smaller than those of `count_bytes`, and than the
   number of characters plus one, by the number of items that themselves end in a newline.
   */
  lemma {:induction false} ItemsTotals(items: seq<Item>)
    requires AllWellFormed(items)
    ensures Sum(items, AllBytesOf) + Sum(items, EndingInNewline) == Sum(items, ByteCountOf)
    ensures Sum(items, AllLinesOf) + Sum(items, EndingInNewline) == Sum(items, LineCountOf)
    ensures items != [] ==> Sum(items, AllCharsOf) + Sum(items, EndingInNewline) == |RebuildChars(items)| + 1
  {
    if items == [] {
    } else {
      ItemTotals(items[0]);
      assert forall n :: 0 <= n < |items[1..]| ==> items[1..][n] == items[n + 1];
      ItemsTotals(items[1..]);
    }
  }

  /** One file: how far the totals of `count_all` are off. */
  lemma FileTotals(stream: seq<byte>, m: nat)
    requires WellFormed(stream)
    ensures Chars(stream).Some?
    ensures var items := Items(stream, NEWLINE, m);
            var less := Sum(items, EndingInNewline);
            && Sum(items, AllBytesOf) + less == |stream| + Excess(stream, m)
            && Sum(items, AllLinesOf) + less == CountByte(stream, NEWLINE) + Excess(stream, m)
            && Sum(items, AllCharsOf) + less == |Chars(stream).value| + Excess(stream, m)
  {
    ItemsDecode(stream, m);
    ItemsTotals(Items(stream, NEWLINE, m));
    FileExcess(stream, m);
  }

  function TotalChars(files: seq<seq<byte>>): nat {
    if files == [] then 0 else
      TotalChars(files[1..]) + match Chars(files[0]) case Some(chars) => |chars| case None => 0
  }

  /** Every input counts once. */
  lemma {:induction false} TotalCharsOf(a: seq<seq<byte>>, file: seq<byte>, b: seq<seq<byte>>)
    requires Chars(file).Some?
    ensures TotalChars([file]) == |Chars(file).value|
    ensures TotalChars(a + b) == TotalChars(a) + TotalChars(b)
    decreases |a|
  {
    assert [file][1..] == [];
    if a == [] {
      assert a + b == b;
    } else {
      assert (a + b)[1..] == a[1..] + b;
      TotalCharsOf(a[1..], file, b);
    }
  }

  lemma {:induction false} FilesTotals(files: seq<seq<byte>>, m: nat)
    requires forall n :: 0 <= n < |files| ==> WellFormed(files[n])
    ensures var items := AllItems(files, m);
            var less := Sum(items, EndingInNewline);
            && Sum(items, AllBytesOf) + less == TotalBytes(files) + TotalExcess(files, m)
            && Sum(items, AllLinesOf) + less == TotalLines(files) + TotalExcess(files, m)
            && Sum(items, AllCharsOf) + less == TotalChars(files) + TotalExcess(files, m)
  {
    if files == [] {
    } else {
      var first, rest := Items(files[0], NEWLINE, m), AllItems(files[1..], m);
      FileTotals(files[0], m);
      FilesTotals(files[1..], m);
      SumConcat(first, rest, EndingInNewline);
      SumConcat(first, rest, AllBytesOf);
      SumConcat(first, rest, AllLinesOf);
      SumConcat(first, rest, AllCharsOf);
    }
  }

  /**
   `wc -c -m -l -w` in any interleaving: exactly how far the totals are off.  They are too large by one
   for each input whose final newline was not stripped, and too small by one for each item that itself
   ends in a newline.
   */
  lemma WcAllTotals(files: seq<seq<byte>>, m: nat, size: nat, run: seq<P.Client<Item>>, early: seq<bool>)
    requires forall n :: 0 <= n < |files| ==> WellFormed(files[n])
    requires Finished(AllItems(files, m), size, run, early)
    ensures var jobs := run[|early|].pool.completed;
            var less := Sum(AllItems(files, m), EndingInNewline);
            && Sum(jobs, AllBytesOf) + less == TotalBytes(files) + TotalExcess(files, m)
            && Sum(jobs, AllLinesOf) + less == TotalLines(files) + TotalExcess(files, m)
            && Sum(jobs, AllCharsOf) + less == TotalChars(files) + TotalExcess(files, m)
  {
    var jobs := AllItems(files, m);
    P.FinishedRun(jobs, size, run, early);
    SumPermuted(run[|early|].pool.completed, jobs, AllBytesOf);
    SumPermuted(run[|early|].pool.completed, jobs, AllLinesOf);
    SumPermuted(run[|early|].pool.completed, jobs, AllCharsOf);
    FilesTotals(files, m);
  }
}
