/** Splitting a byte stream into lines (`BufRead::split(b'\n')`) and writing lines back. */
module Lines {
  import opened Bytes
  import opened Sequences

  /** The lines that `split(b'\n')` yields: the newlines are dropped, and a final newline adds no empty line. */
  function SplitLines(s: seq<byte>): seq<Line> {
    if s == [] then [] else
      var p := FirstIndex(s, NEWLINE);
      if p == |s| then [Line(s)] else [Line(s[..p])] + SplitLines(s[p + 1..])
  }

  /** Every line followed by a newline. */
  function Unlines(lines: seq<Line>): seq<byte> {
    if lines == [] then [] else lines[0].bytes + [NEWLINE] + Unlines(lines[1..])
  }

  ghost predicate NewlineFree(lines: seq<Line>) {
    forall i :: 0 <= i < |lines| ==> NEWLINE !in lines[i].bytes
  }

  predicate Terminated(s: seq<byte>) {
    s == [] || s[|s| - 1] == NEWLINE
  }

  lemma {:induction false} SplitNewlineFree(s: seq<byte>)
    ensures NewlineFree(SplitLines(s))
  {
    if s == [] {
    } else {
      var p := FirstIndex(s, NEWLINE);
      if p == |s| {
        assert s[..p] == s;
      } else {
        SplitNewlineFree(s[p + 1..]);
      }
    }
  }

  lemma {:induction false} FirstNewlineAfterLine(line: seq<byte>, rest: seq<byte>)
    requires NEWLINE !in line
    ensures FirstIndex(line + [NEWLINE] + rest, NEWLINE) == |line|
  {
    if line == [] {
      assert [] + [NEWLINE] + rest == [NEWLINE] + rest;
    } else {
      assert line[0] in line && line[0] != NEWLINE;
      assert (line + [NEWLINE] + rest)[1..] == line[1..] + [NEWLINE] + rest;
      FirstNewlineAfterLine(line[1..], rest);
    }
  }

  /** Reading back what was written gives the same lines, empty ones included. */
  lemma {:induction false} SplitUnlines(lines: seq<Line>)
    requires NewlineFree(lines)
    ensures SplitLines(Unlines(lines)) == lines
  {
    if lines == [] {
    } else {
      var line := lines[0].bytes;
      var rest := Unlines(lines[1..]);
      var s := line + [NEWLINE] + rest;
      FirstNewlineAfterLine(line, rest);
      assert s[..|line|] == line;
      assert s[|line| + 1..] == rest;
      SplitUnlines(lines[1..]);
    }
  }

  lemma UnlinesCons(line: Line, rest: seq<Line>)
    ensures Unlines([line] + rest) == line.bytes + [NEWLINE] + Unlines(rest)
  {
    assert ([line] + rest)[1..] == rest;
  }

  /** The first line that splitting finds. */
  lemma SplitFirst(s: seq<byte>) returns (p: nat)
    requires s != []
    ensures p == FirstIndex(s, NEWLINE)
    ensures p == |s| ==> SplitLines(s) == [Line(s)] && !Terminated(s)
    ensures p != |s| ==> p < |s| && s == s[..p] + [NEWLINE] + s[p + 1..]
                         && SplitLines(s) == [Line(s[..p])] + SplitLines(s[p + 1..])
  {
    p := FirstIndex(s, NEWLINE);
    if p == |s| {
      assert s[..p] == s && s[|s| - 1] in s;
    }
  }

  lemma TerminatedConcat(s: seq<byte>, t: seq<byte>)
    ensures t != [] ==> Terminated(s + t) == Terminated(t)
    ensures Terminated(s) && Terminated(t) ==> Terminated(s + t)
  {
    if t == [] {
      assert s + t == s;
    } else {
      assert (s + t)[|s + t| - 1] == t[|t| - 1];
    }
  }

  /** With the newline that a last, incomplete line lacks. */
  function Completed(s: seq<byte>): seq<byte> {
    if Terminated(s) then s else s + [NEWLINE]
  }

  lemma CompleteMore(s: seq<byte>, t: seq<byte>)
    requires Terminated(s)
    ensures s + Completed(t) == Completed(s + t)
  {
    TerminatedConcat(s, t);
    Associative(s, t, [NEWLINE]);
  }

  /** Writing back what was read gives the same bytes, up to the newline that a last, unterminated line gains. */
  lemma {:induction false} UnlinesSplit(s: seq<byte>)
    ensures Unlines(SplitLines(s)) == if Terminated(s) then s else s + [10]
  {
    if s == [] {
    } else {
      var p := SplitFirst(s);
      if p == |s| {
        UnlinesCons(Line(s), []);
        assert [Line(s)] + [] == [Line(s)];
      } else {
        var rest := s[p + 1..];
        UnlinesSplit(rest);
        UnlinesCons(Line(s[..p]), SplitLines(rest));
        CompleteMore(s[..p] + [NEWLINE], rest);
      }
    }
  }

  lemma {:induction false} UnlinesConcat(a: seq<Line>, b: seq<Line>)
    ensures Unlines(a + b) == Unlines(a) + Unlines(b)
  {
    if a == [] {
      assert a + b == b;
    } else {
      assert (a + b)[0] == a[0] && (a + b)[1..] == a[1..] + b;
      UnlinesConcat(a[1..], b);
    }
  }

  /** What the lines are: text is cut at its newline bytes, and bytes after the last one are a line of their own. */
  lemma SplitAtNewline(a: seq<byte>, b: seq<byte>)
    requires 10 !in a
    ensures SplitLines([]) == []
    ensures a != [] ==> SplitLines(a) == [Line(a)]
    ensures SplitLines(a + [10] + b) == [Line(a)] + SplitLines(b)
  {
    FirstNewlineAfterLine(a, b);
    var s := a + [10] + b;
    assert s[..|a|] == a && s[|a| + 1..] == b;
  }

  /** Splitting commutes with cutting after a newline. */
  lemma {:induction false} SplitConcat(a: seq<byte>, b: seq<byte>)
    requires Terminated(a)
    ensures SplitLines(a + b) == SplitLines(a) + SplitLines(b)
    decreases |a|
  {
    if a == [] {
      assert a + b == b;
    } else {
      var p := SplitFirst(a);
      var rest := a[p + 1..];
      assert rest != [] ==> rest[|rest| - 1] == a[|a| - 1];
      SplitConcat(rest, b);
      SplitMore(a[..p], rest, b);
    }
  }

  lemma SplitMore(line: seq<byte>, rest: seq<byte>, b: seq<byte>)
    requires NEWLINE !in line && SplitLines(rest + b) == SplitLines(rest) + SplitLines(b)
    ensures SplitLines(line + [NEWLINE] + rest + b) == [Line(line)] + SplitLines(rest) + SplitLines(b)
  {
    Associative(line + [NEWLINE], rest, b);
    SplitAtNewline(line, rest + b);
    Associative([Line(line)], SplitLines(rest), SplitLines(b));
  }
}
