/** `tail`: the last lines of a file, found backwards block by block, and of a stream, kept in a bounded queue. */
module Tail {
  import opened Bytes
  import opened Lines
  import opened Sequences
  import opened Utf8

  // ---------- the place to print from ----------

  /** k starts the suffix after the (n+1)-th newline from the end, or the whole text when there are fewer. */
  predicate IsCut(text: seq<byte>, n: nat, k: nat) {
    && k <= |text|
    && if k == 0 then CountByte(text, NEWLINE) <= n
       else text[k - 1] == NEWLINE && CountByte(text[k..], NEWLINE) == n
  }

  function Cut(text: seq<byte>, n: nat): (k: nat)
    ensures k <= |text|
  {
    if text == [] then 0
    else
      var last := |text| - 1;
      if text[last] != NEWLINE then Cut(text[..last], n)
      else if n == 0 then |text|
      else Cut(text[..last], n - 1)
  }

  lemma CountSplit(text: seq<byte>, i: nat, j: nat)
    requires i <= j <= |text|
    ensures CountByte(text[i..], NEWLINE) == CountByte(text[i..j], NEWLINE) + CountByte(text[j..], NEWLINE)
  {
    assert text[i..] == text[i..j] + text[j..];
    CountByteConcat(text[i..j], text[j..], NEWLINE);
  }

  lemma CountOne(b: byte)
    ensures CountByte([b], NEWLINE) == if b == NEWLINE then 1 else 0
  {
    assert [b][1..] == [];
  }

  lemma {:induction false} CutIsCut(text: seq<byte>, n: nat)
    ensures IsCut(text, n, Cut(text, n))
  {
    if text == [] {
    } else {
      var last := |text| - 1;
      var front, k := text[..last], Cut(text, n);
      assert text == front + [text[last]];
      CountByteConcat(front, [text[last]], NEWLINE);
      CountOne(text[last]);
      if text[last] != NEWLINE || n > 0 {
        CutIsCut(front, if text[last] == NEWLINE then n - 1 else n);
        DropSnoc(text, k);
        CountByteConcat(front[k..], [text[last]], NEWLINE);
      }
    }
  }

  /** Before such a place there is one more newline. */
  lemma EarlierHasMore(text: seq<byte>, n: nat, j: nat, k: nat)
    requires IsCut(text, n, k) && j < k
    ensures CountByte(text[j..], NEWLINE) > n
  {
    CountSplit(text, j, k - 1);
    CountSplit(text, k - 1, k);
    assert text[k - 1..k] == [NEWLINE];
    CountOne(NEWLINE);
  }

  /** There is exactly one such place, so it does not depend on how it is looked for. */
  lemma CutUnique(text: seq<byte>, n: nat, k: nat)
    ensures IsCut(text, n, k) <==> k == Cut(text, n)
  {
    CutIsCut(text, n);
    assert text[0..] == text;
    if IsCut(text, n, k) {
      if k < Cut(text, n) {
        EarlierHasMore(text, n, k, Cut(text, n));
      } else if Cut(text, n) < k {
        EarlierHasMore(text, n, Cut(text, n), k);
      }
    }
  }

  // ---------- a file ----------

  /** Blocks in the order in which they are popped: the last one first. */
  function Popped(blocks: seq<seq<byte>>): seq<byte> {
    if blocks == [] then [] else blocks[|blocks| - 1] + Popped(blocks[..|blocks| - 1])
  }

  lemma PoppedPush(blocks: seq<seq<byte>>, block: seq<byte>)
    ensures Popped(blocks + [block]) == block + Popped(blocks)
  {
    assert (blocks + [block])[..|blocks|] == blocks;
  }

  lemma CountStep(text: seq<byte>, i: nat)
    requires i < |text|
    ensures CountByte(text[i..], NEWLINE) == CountByte(text[i + 1..], NEWLINE) + if text[i] == NEWLINE then 1 else 0
  {
    assert text[i..][1..] == text[i + 1..];
  }

  /**
   One block, scanned backwards: the number of newlines found so far, and the block, cut after the
   newline that is one too many.
   */
  method ScanBlock(text: seq<byte>, position: nat, length: nat, found: nat, n: nat)
    returns (block: seq<byte>, lines: nat)
    requires position + length <= |text|
    requires found == CountByte(text[position + length..], NEWLINE) && found <= n
    ensures lines <= n ==> lines == CountByte(text[position..], NEWLINE) && block == text[position..position + length]
    ensures lines > n ==>
      && |block| < length && block == text[position + length - |block|..position + length]
      && IsCut(text, n, position + length - |block|)
  {
    block, lines := text[position..position + length], found;
    var pos := length;
    while pos > 0
      invariant 0 <= pos <= length && block == text[position..position + length]
      invariant lines == CountByte(text[position + pos..], NEWLINE) && lines <= n
    {
      pos := pos - 1;
      CountStep(text, position + pos);
      if block[pos] == NEWLINE {
        lines := lines + 1;
        if lines > n {
          block := block[pos + 1..];
          break;
        }
      }
    }
  }

  method WriteBlocks(blocks: seq<seq<byte>>) returns (out: seq<byte>)
    ensures out == Popped(blocks)
  {
    out := [];
    var tail := blocks;
    while tail != []
      invariant Popped(blocks) == out + Popped(tail)
    {
      out := out + tail[|tail| - 1];
      tail := tail[..|tail| - 1];
    }
  }

  /** A scanned block in front of what was collected: the text from its start, and the cut if the scan ends here. */
  lemma BlockAdds(text: seq<byte>, n: nat, blocks: seq<seq<byte>>, block: seq<byte>, k: nat, end: nat)
    requires k <= end <= |text| && block == text[k..end] && Popped(blocks) == text[end..]
    ensures Popped(blocks + [block]) == text[k..]
    ensures k == 0 ==> text[k..] == text
    ensures IsCut(text, n, k) ==> k == Cut(text, n)
  {
    PoppedPush(blocks, block);
    assert text[k..] == text[k..end] + text[end..];
    CutUnique(text, n, k);
  }

  /** The file version, for any block size. */
  method TailFile(text: seq<byte>, blockSize: nat, n: nat) returns (out: seq<byte>)
    requires blockSize >= 1
    ensures out == text[Cut(text, n)..]
  {
    var lines := 0;
    var tail: seq<seq<byte>> := [];
    var position := |text|;
    while true
      invariant 0 <= position <= |text| && 0 <= lines <= n
      invariant lines == CountByte(text[position..], NEWLINE)
      invariant Popped(tail) == text[position..]
      decreases position
    {
      ghost var end := position;
      var newPosition := if position < blockSize then 0 else position - blockSize;
      var length := position - newPosition;
      position := newPosition;
      var block;
      block, lines := ScanBlock(text, position, length, lines, n);
      BlockAdds(text, n, tail, block, end - |block|, end);
      tail := tail + [block];
      if position == 0 || lines > n {
        break;
      }
    }
    out := WriteBlocks(tail);
  }

  // ---------- a stream ----------

  /** The last n of a list; all of it when n is 0, because an empty queue is never shortened. */
  function Recent(lines: seq<Line>, n: nat): seq<Line> {
    if n == 0 || |lines| <= n then lines else lines[|lines| - n..]
  }

  /** The last n of a list, none when n is 0. */
  function LastLines(lines: seq<Line>, n: nat): seq<Line> {
    if |lines| <= n then lines else lines[|lines| - n..]
  }

  function StripCarriageReturn(line: seq<byte>): seq<byte> {
    if line != [] && line[|line| - 1] == CARRIAGE_RETURN then line[..|line| - 1] else line
  }

  /** What `lines()` and the filter make of one line with its end: nothing when it is not UTF-8. */
  function Decoded(raw: seq<byte>): seq<Line> {
    if !WellFormed(raw) then []
    else if raw != [] && raw[|raw| - 1] == NEWLINE then [Line(StripCarriageReturn(raw[..|raw| - 1]))]
    else [Line(raw)]
  }

  /** `read_until` a newline: the first line with its end, and what follows it. */
  function TakeLine(text: seq<byte>): (r: (seq<byte>, seq<byte>))
    requires text != []
    ensures r.0 != [] && text == r.0 + r.1
  {
    var p := FirstIndex(text, NEWLINE);
    if p == |text| then (text, []) else (text[..p + 1], text[p + 1..])
  }

  /** What f makes of each line with its end, in order. */
  function Collect(text: seq<byte>, f: seq<byte> -> seq<Line>): seq<Line>
    decreases |text|
  {
    if text == [] then [] else f(TakeLine(text).0) + Collect(TakeLine(text).1, f)
  }

  /** The lines that reach the queue. */
  function Accepted(text: seq<byte>): seq<Line> {
    Collect(text, Decoded)
  }

  /** The queue after one more line. */
  lemma RecentPush(seen: seq<Line>, line: Line, n: nat)
    ensures var queue := Recent(seen, n);
            Recent(seen + [line], n) == (if |queue| == n && n > 0 then queue[1..] else queue) + [line]
  {
  }

  method ReadLine(text: seq<byte>) returns (raw: seq<byte>, rest: seq<byte>)
    requires text != []
    ensures raw != [] && text == raw + rest
    ensures Accepted(text) == Decoded(raw) + Accepted(rest)
  {
    var p := FirstIndex(text, NEWLINE);
    var end := if p == |text| then p else p + 1;
    raw, rest := text[..end], text[end..];
    assert p == |text| ==> raw == text && rest == [];
    CollectStep(text, raw, rest, Decoded);
  }

  /** One line read: it is dropped, or pushed after the oldest one was popped from a full queue. */
  method Absorb(queue: seq<Line>, raw: seq<byte>, n: nat, ghost seen: seq<Line>) returns (longer: seq<Line>)
    requires raw != [] && queue == Recent(seen, n)
    ensures longer == Recent(seen + Decoded(raw), n)
  {
    longer := queue;
    if WellFormed(raw) {
      var line := Line(if raw[|raw| - 1] == NEWLINE then StripCarriageReturn(raw[..|raw| - 1]) else raw);
      RecentPush(seen, line, n);
      if |longer| == n && longer != [] {
        longer := longer[1..];
      }
      longer := longer + [line];
    } else {
      assert seen + [] == seen;
    }
  }

  /** The stream version. */
  method TailStdin(text: seq<byte>, n: nat) returns (out: seq<byte>)
    ensures out == Unlines(Recent(Accepted(text), n))
  {
    var queue: seq<Line> := [];
    var rest := text;
    ghost var seen: seq<Line> := [];
    while rest != []
      invariant seen + Accepted(rest) == Accepted(text)
      invariant queue == Recent(seen, n)
      decreases |rest|
    {
      var raw;
      raw, rest := ReadLine(rest);
      Associative(seen, Decoded(raw), Accepted(rest));
      queue := Absorb(queue, raw, n, seen);
      seen := seen + Decoded(raw);
    }
    assert seen + [] == seen;
    out := WriteLines(queue);
  }

  method WriteLines(queue: seq<Line>) returns (out: seq<byte>)
    ensures out == Unlines(queue)
  {
    out := [];
    for i := 0 to |queue|
      invariant out == Unlines(queue[..i])
    {
      assert queue[..i + 1] == queue[..i] + [queue[i]];
      UnlinesConcat(queue[..i], [queue[i]]);
      UnlinesCons(queue[i], []);
      assert [queue[i]] + [] == [queue[i]];
      assert queue[i].bytes + [NEWLINE] + [] == queue[i].bytes + [NEWLINE];
      out := out + queue[i].bytes + [NEWLINE];
    }
    assert queue[..|queue|] == queue;
  }

  // ---------- when the two agree ----------

  lemma UnlinesTerminated(lines: seq<Line>)
    ensures Terminated(Unlines(lines))
    ensures lines != [] ==> Unlines(lines) != []
  {
    if lines != [] {
      UnlinesTerminated(lines[1..]);
      TerminatedConcat(lines[0].bytes + [NEWLINE], Unlines(lines[1..]));
    }
  }

  lemma {:induction false} CountUnlines(lines: seq<Line>)
    requires NewlineFree(lines)
    ensures CountByte(Unlines(lines), NEWLINE) == |lines|
  {
    if lines == [] {
    } else {
      var line := lines[0].bytes;
      CountUnlines(lines[1..]);
      CountByteZero(line, NEWLINE);
      CountOne(NEWLINE);
      CountByteConcat(line, [NEWLINE], NEWLINE);
      CountByteConcat(line + [NEWLINE], Unlines(lines[1..]), NEWLINE);
    }
  }

  /** Where a suffix of complete lines starts. */
  lemma LinesCut(before: seq<Line>, last: seq<Line>, n: nat)
    requires NewlineFree(last) && |last| <= n && (before != [] ==> |last| == n)
    ensures IsCut(Unlines(before) + Unlines(last), n, |Unlines(before)|)
  {
    var text, k := Unlines(before) + Unlines(last), |Unlines(before)|;
    CountUnlines(last);
    UnlinesTerminated(before);
    assert text[k..] == Unlines(last);
    assert before == [] ==> text == Unlines(last);
    assert k > 0 ==> text[k - 1] == Unlines(before)[k - 1];
  }

  /** On text whose last line is complete, the file version prints the last n lines. */
  lemma FilePrintsLastLines(text: seq<byte>, n: nat)
    requires Terminated(text)
    ensures text[Cut(text, n)..] == Unlines(LastLines(SplitLines(text), n))
  {
    var lines := SplitLines(text);
    var last := LastLines(lines, n);
    var before := lines[..|lines| - |last|];
    SplitNewlineFree(text);
    UnlinesSplit(text);
    assert lines == before + last;
    UnlinesConcat(before, last);
    LinesCut(before, last, n);
    CutUnique(text, n, |Unlines(before)|);
  }

  /** Every text is complete lines and then a line without its end. */
  lemma {:induction false} LastPart(text: seq<byte>) returns (front: seq<byte>, last: seq<byte>)
    ensures text == front + last && Terminated(front) && NEWLINE !in last
    ensures last == [] <==> Terminated(text)
  {
    if Terminated(text) {
      front, last := text, [];
    } else {
      front, last := LastPart(text[..|text| - 1]);
      last := last + [text[|text| - 1]];
    }
  }

  lemma SplitLastPart(front: seq<byte>, last: seq<byte>)
    requires Terminated(front) && NEWLINE !in last && last != []
    ensures SplitLines(front + last) == SplitLines(front) + [Line(last)]
  {
    SplitConcat(front, last);
    SplitAtNewline(last, []);
  }

  /** Bytes after the last newline do not move the cut. */
  lemma CutOfLastPart(front: seq<byte>, last: seq<byte>, n: nat)
    requires NEWLINE !in last
    ensures Cut(front + last, n) == Cut(front, n)
  {
    var k := Cut(front, n);
    CutIsCut(front, n);
    CountByteZero(last, NEWLINE);
    CountByteConcat(front, last, NEWLINE);
    CountByteConcat(front[k..], last, NEWLINE);
    assert (front + last)[k..] == front[k..] + last;
    CutUnique(front + last, n, k);
  }

  lemma PartsFromCut(front: seq<byte>, last: seq<byte>, n: nat)
    requires NEWLINE !in last
    ensures (front + last)[Cut(front + last, n)..] == front[Cut(front, n)..] + last
  {
    CutOfLastPart(front, last, n);
  }

  lemma PartsPrintOneMore(front: seq<byte>, last: seq<byte>, n: nat)
    requires Terminated(front) && NEWLINE !in last && last != []
    ensures front[Cut(front, n)..] + last + [NEWLINE] == Unlines(LastLines(SplitLines(front + last), n + 1))
  {
    SplitLastPart(front, last);
    FilePrintsLastLines(front, n);
    OneMoreLine(SplitLines(front), last, n);
  }

  /** On text whose last line is not complete, it prints that line after the last n complete ones. */
  lemma FilePrintsOneMore(text: seq<byte>, n: nat)
    requires !Terminated(text)
    ensures text[Cut(text, n)..] + [10] == Unlines(LastLines(SplitLines(text), n + 1))
  {
    var front, last := LastPart(text);
    PartsFromCut(front, last, n);
    PartsPrintOneMore(front, last, n);
  }

  lemma OneMoreLine(lines: seq<Line>, last: seq<byte>, n: nat)
    ensures Unlines(LastLines(lines + [Line(last)], n + 1)) == Unlines(LastLines(lines, n)) + last + [NEWLINE]
  {
    var recent, line := LastLines(lines, n), Line(last);
    assert LastLines(lines + [line], n + 1) == recent + [line];
    UnlinesConcat(recent, [line]);
    UnlinesCons(line, []);
    assert [line] + [] == [line] && last + [NEWLINE] + [] == last + [NEWLINE];
    Associative(Unlines(recent), last, [NEWLINE]);
  }

  /** On text whose last line is not complete, it prints something that does not end in a newline. */
  lemma FilePrintsIncomplete(text: seq<byte>, n: nat)
    requires !Terminated(text)
    ensures !Terminated(text[Cut(text, n)..])
  {
    CutIsCut(text, n);
    var k := Cut(text, n);
    assert text[|text|..] == [];
    assert k < |text|;
    assert text[k..][|text| - k - 1] == text[|text| - 1];
  }

  /** What a complete line, given without its newline, puts into the queue. */
  function AcceptedLine(line: Line): seq<Line> {
    if WellFormed(line.bytes) then [Line(StripCarriageReturn(line.bytes))] else []
  }

  /** The lines that reach the queue from complete lines. */
  function AcceptedLines(lines: seq<Line>): seq<Line> {
    if lines == [] then [] else AcceptedLine(lines[0]) + AcceptedLines(lines[1..])
  }

  lemma AcceptedCons(line: Line, rest: seq<Line>)
    ensures AcceptedLines([line] + rest) == AcceptedLine(line) + AcceptedLines(rest)
  {
    assert ([line] + rest)[1..] == rest;
  }

  lemma DecodedComplete(line: seq<byte>)
    ensures Decoded(line + [NEWLINE]) == AcceptedLine(Line(line))
  {
    FinalNewline(line);
    assert (line + [NEWLINE])[..|line|] == line;
  }

  lemma CollectStep(text: seq<byte>, raw: seq<byte>, rest: seq<byte>, f: seq<byte> -> seq<Line>)
    requires text != [] && TakeLine(text) == (raw, rest)
    ensures Collect(text, f) == f(raw) + Collect(rest, f)
  {
  }

  lemma {:induction false} AcceptedOfComplete(text: seq<byte>)
    requires Terminated(text)
    ensures Accepted(text) == AcceptedLines(SplitLines(text))
    decreases |text|
  {
    if text == [] {
    } else {
      var p := SplitFirst(text);
      AcceptedOfComplete(text[p + 1..]);
      CollectStep(text, text[..p + 1], text[p + 1..], Decoded);
      TakeSnoc(text, p);
      DecodedComplete(text[..p]);
      AcceptedCons(Line(text[..p]), SplitLines(text[p + 1..]));
    }
  }

  /** Bytes after the last newline are a line of their own, from which no carriage return is taken. */
  lemma {:induction false} AcceptedOfParts(front: seq<byte>, last: seq<byte>)
    requires Terminated(front) && NEWLINE !in last && last != []
    ensures Accepted(front + last) == AcceptedLines(SplitLines(front)) + if WellFormed(last) then [Line(last)] else []
    decreases |front|
  {
    if front == [] {
      AcceptedAlone(last);
      assert [] + last == last;
    } else {
      var p := SplitFirst(front);
      var line, rest := front[..p], front[p + 1..];
      assert rest != [] ==> rest[|rest| - 1] == front[|front| - 1];
      AcceptedOfParts(rest, last);
      Associative(line + [NEWLINE], rest, last);
      AcceptedOfLine(line, rest + last);
      AcceptedCons(Line(line), SplitLines(rest));
      Associative(AcceptedLine(Line(line)), AcceptedLines(SplitLines(rest)),
                  if WellFormed(last) then [Line(last)] else []);
    }
  }

  lemma AcceptedAlone(last: seq<byte>)
    requires NEWLINE !in last && last != []
    ensures Accepted(last) == if WellFormed(last) then [Line(last)] else []
  {
    assert FirstIndex(last, NEWLINE) == |last|;
    CollectStep(last, last, [], Decoded);
    assert Collect([], Decoded) == [];
    assert Decoded(last) + [] == Decoded(last);
  }

  lemma AcceptedOfLine(line: seq<byte>, rest: seq<byte>)
    requires NEWLINE !in line
    ensures Accepted(line + [NEWLINE] + rest) == AcceptedLine(Line(line)) + Accepted(rest)
  {
    var text, raw := line + [NEWLINE] + rest, line + [NEWLINE];
    FirstNewlineAfterLine(line, rest);
    assert text[..|line| + 1] == raw && text[|line| + 1..] == rest;
    CollectStep(text, raw, rest, Decoded);
    DecodedComplete(line);
  }

  /**
   What reaches the queue, for every text: the lines that are valid UTF-8, in order, each without a final
   carriage return if it was complete, and as it is if it was not.
   */
  lemma AcceptedIs(text: seq<byte>)
    ensures var lines := SplitLines(text);
            if text == [] || text[|text| - 1] == 10 then Accepted(text) == AcceptedLines(lines)
            else
              && lines != []
              && var last := lines[|lines| - 1];
              && 0 < |last.bytes| <= |text| && last.bytes == text[|text| - |last.bytes|..]
              && Accepted(text) == AcceptedLines(lines[..|lines| - 1]) + if WellFormed(last.bytes) then [last] else []
  {
    if Terminated(text) {
      AcceptedOfComplete(text);
    } else {
      var front, last := LastPart(text);
      SplitLastPart(front, last);
      AcceptedOfParts(front, last);
    }
  }

  /** ... where lines count one by one, in order, and the carriage return is byte 13. */
  lemma AcceptedLineByLine(a: seq<Line>, b: seq<Line>, line: seq<byte>)
    ensures AcceptedLines(a + b) == AcceptedLines(a) + AcceptedLines(b)
    ensures AcceptedLines([Line(line + [13])]) == if WellFormed(line + [13]) then [Line(line)] else []
    ensures line == [] || line[|line| - 1] != 13 ==>
              AcceptedLines([Line(line)]) == if WellFormed(line) then [Line(line)] else []
  {
    AcceptedConcat(a, b);
    AcceptedCons(Line(line), []);
    AcceptedCons(Line(line + [13]), []);
    assert (line + [13])[..|line|] == line;
    assert [Line(line)] + [] == [Line(line)] && [Line(line + [13])] + [] == [Line(line + [13])];
    assert AcceptedLines([]) == [];
  }

  /** A line that both versions print alike: valid, and without a carriage return at its end. */
  predicate Plain(line: Line) {
    WellFormed(line.bytes) && StripCarriageReturn(line.bytes) == line.bytes
  }

  ghost predicate AllPlain(lines: seq<Line>) {
    forall i :: 0 <= i < |lines| ==> Plain(lines[i])
  }

  ghost predicate AllReadable(lines: seq<Line>) {
    forall i :: 0 <= i < |lines| ==> WellFormed(lines[i].bytes)
  }

  lemma {:induction false} AcceptedConcat(a: seq<Line>, b: seq<Line>)
    ensures AcceptedLines(a + b) == AcceptedLines(a) + AcceptedLines(b)
  {
    if a == [] {
      assert a + b == b;
    } else {
      assert a + b == [a[0]] + (a[1..] + b);
      AcceptedCons(a[0], a[1..] + b);
      AcceptedConcat(a[1..], b);
      Associative(AcceptedLine(a[0]), AcceptedLines(a[1..]), AcceptedLines(b));
    }
  }

  lemma {:induction false} AcceptedOfReadable(lines: seq<Line>)
    requires AllReadable(lines)
    ensures |AcceptedLines(lines)| == |lines|
    ensures forall i :: 0 <= i < |lines| ==> AcceptedLines(lines)[i].bytes == StripCarriageReturn(lines[i].bytes)
  {
    if lines == [] {
    } else {
      assert WellFormed(lines[0].bytes);
      AcceptedOfReadable(lines[1..]);
    }
  }

  lemma {:induction false} StripKeepsReadable(line: seq<byte>)
    requires WellFormed(line + [CARRIAGE_RETURN])
    ensures WellFormed(line)
    decreases |line|
  {
    if line == [] {
    } else {
      var s := line + [CARRIAGE_RETURN];
      var n := Width(line[0]);
      if n > |line| {
        assert s[..n] == s;
        NoControlInside(s, |line|);
      } else {
        StartsAppend(line, [CARRIAGE_RETURN]);
        StripKeepsReadable(line[n..]);
      }
    }
  }

  /** Only the first byte of a character can be an ASCII byte. */
  lemma NoControlInside(c: seq<byte>, k: nat)
    requires IsChar(c) && 0 < k < |c|
    ensures c[k] >= 0x80
  {
  }

  lemma AllReadableCons(line: Line, rest: seq<Line>)
    ensures AllReadable([line] + rest) <==> WellFormed(line.bytes) && AllReadable(rest)
  {
    if AllReadable([line] + rest) {
      assert forall i :: 0 <= i < |rest| ==> rest[i] == ([line] + rest)[i + 1];
      assert ([line] + rest)[0] == line;
    }
  }

  lemma StrippedIsReadable(line: seq<byte>)
    requires WellFormed(line)
    ensures WellFormed(StripCarriageReturn(line))
  {
    if StripCarriageReturn(line) != line {
      assert line == StripCarriageReturn(line) + [CARRIAGE_RETURN];
      StripKeepsReadable(StripCarriageReturn(line));
    }
  }

  lemma {:induction false} AcceptedAreReadable(lines: seq<Line>)
    ensures AllReadable(AcceptedLines(lines))
  {
    if lines == [] {
    } else {
      AcceptedAreReadable(lines[1..]);
      if WellFormed(lines[0].bytes) {
        StrippedIsReadable(lines[0].bytes);
        AllReadableCons(Line(StripCarriageReturn(lines[0].bytes)), AcceptedLines(lines[1..]));
      } else {
        assert [] + AcceptedLines(lines[1..]) == AcceptedLines(lines[1..]);
      }
    }
  }

  lemma {:induction false} AcceptedNewlineFree(lines: seq<Line>)
    requires NewlineFree(lines)
    ensures NewlineFree(AcceptedLines(lines))
  {
    if lines == [] {
    } else {
      assert NEWLINE !in lines[0].bytes;
      AcceptedNewlineFree(lines[1..]);
    }
  }

  /** What the queue keeps: the last n lines, all of them when there are fewer or n is 0. */
  lemma RecentIs(before: seq<Line>, last: seq<Line>, n: nat)
    ensures |last| == n >= 1 ==> Recent(before + last, n) == last
    ensures |last| <= n || n == 0 ==> Recent(last, n) == last
    ensures |last| == n ==> LastLines(before + last, n) == last
    ensures |last| <= n ==> LastLines(last, n) == last
  {
  }

  lemma RecentOfConcat(before: seq<Line>, last: seq<Line>, n: nat)
    requires |last| <= n && (before != [] ==> |last| == n)
    ensures n >= 1 ==> Recent(before + last, n) == last
  {
    assert before == [] ==> before + last == last;
  }

  lemma LastLinesSplit(lines: seq<Line>, n: nat) returns (before: seq<Line>)
    ensures lines == before + LastLines(lines, n)
    ensures |LastLines(lines, n)| <= n && (before != [] ==> |LastLines(lines, n)| == n)
  {
    before := lines[..|lines| - |LastLines(lines, n)|];
  }

  /** When the last n lines are valid, the queue holds them, stripped. */
  lemma RecentOfReadable(lines: seq<Line>, n: nat)
    requires n >= 1 && AllReadable(LastLines(lines, n))
    ensures Recent(AcceptedLines(lines), n) == AcceptedLines(LastLines(lines, n))
  {
    var last := LastLines(lines, n);
    var before := LastLinesSplit(lines, n);
    AcceptedConcat(before, last);
    AcceptedOfReadable(last);
    RecentOfConcat(AcceptedLines(before), AcceptedLines(last), n);
  }

  /** The queue holds exactly the last n lines if and only if all of those are plain. */
  lemma QueueIsLastLines(lines: seq<Line>, n: nat)
    requires n >= 1
    ensures Recent(AcceptedLines(lines), n) == LastLines(lines, n) <==> AllPlain(LastLines(lines, n))
  {
    var last := LastLines(lines, n);
    if Recent(AcceptedLines(lines), n) == last {
      AcceptedAreReadable(lines);
      RecentOfReadable(lines, n);
      AcceptedOfReadable(last);
    }
    if AllPlain(last) {
      RecentOfReadable(lines, n);
      AcceptedOfReadable(last);
      assert forall i :: 0 <= i < |last| ==> AcceptedLines(last)[i] == last[i];
    }
  }

  ghost predicate NoneReadable(lines: seq<Line>) {
    forall i :: 0 <= i < |lines| ==> !WellFormed(lines[i].bytes)
  }

  /** Nothing reaches the queue if and only if no line is valid. */
  lemma {:induction false} NothingAccepted(lines: seq<Line>)
    ensures AcceptedLines(lines) == [] <==> NoneReadable(lines)
  {
    if lines == [] {
    } else {
      NothingAccepted(lines[1..]);
      if NoneReadable(lines[1..]) && !WellFormed(lines[0].bytes) {
        assert forall i :: 0 < i < |lines| ==> lines[i] == lines[1..][i - 1];
      }
    }
  }

  lemma UnlinesInjective(a: seq<Line>, b: seq<Line>)
    requires NewlineFree(a) && NewlineFree(b)
    ensures Unlines(a) == Unlines(b) <==> a == b
  {
    SplitUnlines(a);
    SplitUnlines(b);
  }

  lemma LinesAgreeIff(text: seq<byte>, lines: seq<Line>, n: nat)
    requires lines == SplitLines(text)
    ensures Unlines(LastLines(lines, n)) == Unlines(Recent(AcceptedLines(lines), n))
       <==> if n == 0 then NoneReadable(lines) else AllPlain(LastLines(lines, n))
  {
    SplitNewlineFree(text);
    AcceptedNewlineFree(lines);
    UnlinesInjective(LastLines(lines, n), Recent(AcceptedLines(lines), n));
    if n == 0 {
      NothingAccepted(lines);
    } else {
      QueueIsLastLines(lines, n);
    }
  }

  /**
   The file and the stream version print the same bytes if and only if the text ends with a complete
   line and either n is positive and each of the last n lines is valid UTF-8 without a final carriage
   return, or n is 0 and there is no valid line at all.
   */
  lemma VersionsAgreeIff(text: seq<byte>, n: nat)
    ensures text[Cut(text, n)..] == Unlines(Recent(Accepted(text), n))
       <==> && Terminated(text)
            && if n == 0 then NoneReadable(SplitLines(text)) else AllPlain(LastLines(SplitLines(text), n))
  {
    UnlinesTerminated(Recent(Accepted(text), n));
    if Terminated(text) {
      LinesAgreeIff(text, SplitLines(text), n);
      FilePrintsLastLines(text, n);
      AcceptedOfComplete(text);
    } else {
      FilePrintsIncomplete(text, n);
    }
  }

  lemma {:induction false} SplitWellFormed(text: seq<byte>)
    ensures WellFormed(text) <==> AllReadable(SplitLines(text))
  {
    if text == [] {
    } else {
      var p := SplitFirst(text);
      if p == |text| {
        assert [Line(text)][0] == Line(text);
      } else {
        var rest := text[p + 1..];
        SplitWellFormed(rest);
        CutAtNewline(text[..p], rest);
        AllReadableCons(Line(text[..p]), SplitLines(rest));
      }
    }
  }

  lemma {:induction false} UnlinesContent(lines: seq<Line>, i: nat, b: byte)
    requires i < |lines| && b in lines[i].bytes
    ensures b in Unlines(lines)
    decreases i
  {
    if i == 0 {
    } else {
      UnlinesContent(lines[1..], i - 1, b);
    }
  }

  lemma SplitContent(text: seq<byte>, lines: seq<Line>, i: nat, b: byte)
    requires lines == SplitLines(text) && i < |lines| && b in lines[i].bytes
    ensures b in text
  {
    SplitNewlineFree(text);
    UnlinesSplit(text);
    UnlinesContent(lines, i, b);
  }

  lemma LineIsPlain(text: seq<byte>, j: nat)
    requires WellFormed(text) && CARRIAGE_RETURN !in text && j < |SplitLines(text)|
    ensures Plain(SplitLines(text)[j])
  {
    SplitWellFormed(text);
    if CARRIAGE_RETURN in SplitLines(text)[j].bytes {
      SplitContent(text, SplitLines(text), j, CARRIAGE_RETURN);
    }
  }

  lemma LastLinesArePlain(lines: seq<Line>, n: nat)
    requires AllPlain(lines)
    ensures AllPlain(LastLines(lines, n))
  {
  }

  /** In particular they agree on complete lines of UTF-8 without carriage returns. */
  lemma VersionsAgreeOnPlainText(text: seq<byte>, n: nat)
    requires Terminated(text) && WellFormed(text) && CARRIAGE_RETURN !in text && n >= 1
    ensures text[Cut(text, n)..] == Unlines(Recent(Accepted(text), n))
  {
    var lines := SplitLines(text);
    forall j | 0 <= j < |lines| ensures Plain(lines[j]) {
      LineIsPlain(text, j);
    }
    LastLinesArePlain(lines, n);
    VersionsAgreeIff(text, n);
  }
}
