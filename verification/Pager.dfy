/** `less`: the position of the pager under jumps and scrolls. */
module Pager {
  import opened Bytes
  import opened Lines

  // ---------- line starts ----------

  /** A line starts at 0 and after every newline that is not the last byte. */
  predicate IsStart(text: seq<byte>, p: nat) {
    p == 0 || (p < |text| && text[p - 1] == NEWLINE)
  }

  /** q is the first line start after p. */
  ghost predicate IsNext(text: seq<byte>, p: nat, q: nat) {
    p < q && IsStart(text, q) && forall r: nat :: p < r < q ==> !IsStart(text, r)
  }

  /** q is the last line start before p. */
  ghost predicate IsPrevious(text: seq<byte>, p: nat, q: nat) {
    q < p && IsStart(text, q) && forall r: nat :: q < r < p ==> !IsStart(text, r)
  }

  /** The number of line starts after p. */
  function StartsAfter(text: seq<byte>, p: nat): nat {
    if p + 1 >= |text| then 0 else CountByte(text[p..|text| - 1], NEWLINE)
  }

  lemma StartsAfterStep(text: seq<byte>, p: nat)
    ensures StartsAfter(text, p) == StartsAfter(text, p + 1) + if IsStart(text, p + 1) then 1 else 0
  {
    if p + 1 < |text| {
      assert text[p..|text| - 1] == [text[p]] + text[p + 1..|text| - 1];
    }
  }

  /** Passing from p to q passes exactly the line starts in between. */
  lemma {:induction false} StartsAfterSkip(text: seq<byte>, p: nat, q: nat)
    requires p <= q && forall r: nat :: p < r <= q ==> !IsStart(text, r)
    ensures StartsAfter(text, p) == StartsAfter(text, q)
    decreases q - p
  {
    if p == q {
    } else {
      StartsAfterStep(text, p);
      StartsAfterSkip(text, p + 1, q);
    }
  }

  lemma {:induction false} StartsAfterShrinks(text: seq<byte>, p: nat, q: nat)
    requires p <= q
    ensures StartsAfter(text, p) >= StartsAfter(text, q)
    decreases q - p
  {
    if p == q {
    } else {
      StartsAfterStep(text, p);
      StartsAfterShrinks(text, p + 1, q);
    }
  }

  /** Scrolling to the next line start leaves one fewer after it. */
  lemma NextCounts(text: seq<byte>, p: nat, q: nat)
    requires IsNext(text, p, q)
    ensures StartsAfter(text, p) == StartsAfter(text, q) + 1
  {
    StartsAfterSkip(text, p, q - 1);
    StartsAfterStep(text, q - 1);
  }

  /** A later line start has fewer line starts after it. */
  lemma StartsAreOrdered(text: seq<byte>, p: nat, q: nat)
    requires p < q && IsStart(text, q)
    ensures StartsAfter(text, p) > StartsAfter(text, q)
  {
    StartsAfterShrinks(text, p, q - 1);
    StartsAfterStep(text, q - 1);
  }

  // ---------- moves ----------

  datatype Move = Top | Bottom | Down | Up

  const HEIGHT := 10

  /** From p, the move leads to q; ok says whether the screen has to be drawn again. */
  ghost predicate Moved(text: seq<byte>, move: Move, p: nat, q: nat, ok: bool) {
    if !ok then
      && q == p
      && match move
         case Top => p == 0
         case Bottom => StartsAfter(text, 0) < 10
         case Down => StartsAfter(text, p) == 0
         case Up => p <= 1
    else
      match move
      case Top => q == 0 && p != 0
      case Bottom => q > 0 && IsStart(text, q) && StartsAfter(text, q) == 9
      case Down => IsNext(text, p, q)
      case Up => p >= 2 && IsPrevious(text, p, q)
  }

  class Pager {
    const mmap: seq<byte>
    var scrollPos: nat
    var cursor: nat

    ghost predicate Valid()
      reads this
    {
      cursor == scrollPos && IsStart(mmap, scrollPos)
    }

    constructor (text: seq<byte>)
      ensures mmap == text && scrollPos == 0 && Valid()
    {
      mmap := text;
      scrollPos, cursor := 0, 0;
    }

    method JumpToTop() returns (ok: bool)
      requires Valid()
      modifies this
      ensures Valid() && Moved(mmap, Top, old(scrollPos), scrollPos, ok)
    {
      ok := scrollPos != 0;
      if ok {
        scrollPos, cursor := 0, 0;
      }
    }

    method JumpToBottom() returns (ok: bool)
      requires Valid()
      modifies this
      ensures Valid() && Moved(mmap, Bottom, old(scrollPos), scrollPos, ok)
    {
      if |mmap| <= 1 {
        return false;
      }
      var height := HEIGHT;
      var index := |mmap| - 1;
      while index > 0
        invariant 0 <= index < |mmap| && height > 0
        invariant StartsAfter(mmap, index) == HEIGHT - height
        invariant scrollPos == old(scrollPos) && cursor == old(cursor)
      {
        index := index - 1;
        StartsAfterStep(mmap, index);
        if mmap[index] == NEWLINE {
          height := height - 1;
        }
        if height == 0 {
          scrollPos, cursor := index + 1, index + 1;
          return true;
        }
      }
      ok := false;
    }

    method ScrollDown() returns (ok: bool)
      requires Valid()
      modifies this
      ensures Valid() && Moved(mmap, Down, old(scrollPos), scrollPos, ok)
    {
      var index := scrollPos;
      while index < |mmap| && mmap[index] != NEWLINE
        invariant scrollPos <= index && (index <= |mmap| || index == scrollPos)
        invariant forall r: nat :: scrollPos < r <= index ==> !IsStart(mmap, r)
      {
        index := index + 1;
      }
      StartsAfterSkip(mmap, scrollPos, index);
      if index + 1 >= |mmap| {
        return false;
      }
      scrollPos, cursor := index + 1, index + 1;
      ok := true;
    }

    method ScrollUp() returns (ok: bool)
      requires Valid()
      modifies this
      ensures Valid() && Moved(mmap, Up, old(scrollPos), scrollPos, ok)
    {
      if scrollPos <= 1 {
        return false;
      }
      var index := scrollPos - 1;
      while index > 0 && mmap[index - 1] != NEWLINE
        invariant 0 <= index < scrollPos
        invariant forall r: nat :: index < r < scrollPos ==> !IsStart(mmap, r)
      {
        index := index - 1;
      }
      scrollPos, cursor := index, index;
      ok := true;
    }
  }

  // ---------- what is shown ----------

  /** The newlines of a line and what follows it, a last byte aside. */
  lemma CountLine(text: seq<byte>, line: seq<byte>, rest: seq<byte>)
    requires text == line + [NEWLINE] + rest && NEWLINE !in line && rest != []
    ensures CountByte(text[..|text| - 1], NEWLINE) == 1 + CountByte(rest[..|rest| - 1], NEWLINE)
  {
    var front := rest[..|rest| - 1];
    assert text[..|text| - 1] == line + [NEWLINE] + front;
    CountByteZero(line, NEWLINE);
    CountByteConcat(line + [NEWLINE], front, NEWLINE);
    CountByteConcat(line, [NEWLINE], NEWLINE);
    assert [NEWLINE][1..] == [];
  }

  lemma CountLastLine(s: seq<byte>)
    requires s != [] && FirstIndex(s, NEWLINE) >= |s| - 1
    ensures CountByte(s[..|s| - 1], NEWLINE) == 0
  {
    CountByteZero(s[..|s| - 1], NEWLINE);
  }

  /** All newlines but one at the very end separate lines. */
  lemma {:induction false} LineCount(s: seq<byte>)
    requires s != []
    ensures |SplitLines(s)| == CountByte(s[..|s| - 1], NEWLINE) + 1
    decreases |s|
  {
    var p := SplitFirst(s);
    if p >= |s| - 1 {
      CountLastLine(s);
    } else {
      LineCount(s[p + 1..]);
      CountLine(s, s[..p], s[p + 1..]);
    }
  }

  lemma StartsAreLines(text: seq<byte>, p: nat)
    requires p < |text|
    ensures StartsAfter(text, p) + 1 == |SplitLines(text[p..])|
  {
    LineCount(text[p..]);
    assert text[p..][..|text| - p - 1] == text[p..|text| - 1];
  }

  lemma LinesOfSuffix(text: seq<byte>, front: seq<byte>, rest: seq<byte>)
    requires text == front + rest && Terminated(front)
    ensures |SplitLines(rest)| <= |SplitLines(text)|
    ensures SplitLines(rest) == SplitLines(text)[|SplitLines(text)| - |SplitLines(rest)|..]
  {
    SplitConcat(front, rest);
  }

  /** From a line start on, the text consists of its last lines: one more than there are line starts after it. */
  lemma LinesFromStart(text: seq<byte>, p: nat)
    requires IsStart(text, p) && p < |text|
    ensures var shown := StartsAfter(text, p) + 1;
            && shown <= |SplitLines(text)|
            && SplitLines(text[p..]) == SplitLines(text)[|SplitLines(text)| - shown..]
  {
    StartsAreLines(text, p);
    LinesOfSuffix(text, text[..p], text[p..]);
  }

  /** A jump to the bottom shows the last ten lines, and fails exactly when there are no more than these. */
  lemma BottomShowsTen(text: seq<byte>, p: nat, q: nat, ok: bool)
    requires Moved(text, Bottom, p, q, ok)
    ensures ok <==> |SplitLines(text)| > 10
    ensures ok ==> q < |text| && SplitLines(text[q..]) == SplitLines(text)[|SplitLines(text)| - 10..]
  {
    if text != [] {
      LinesFromStart(text, 0);
      assert text[0..] == text;
    }
    if ok {
      StartsAreOrdered(text, 0, q);
      LinesFromStart(text, q);
    }
  }

  /** A scroll down takes the first line away; it fails exactly when only one is shown. */
  lemma DownHidesOne(text: seq<byte>, p: nat, q: nat, ok: bool)
    requires IsStart(text, p) && Moved(text, Down, p, q, ok)
    ensures ok <==> |SplitLines(text[p..])| > 1
    ensures ok ==> q < |text| && SplitLines(text[q..]) == SplitLines(text[p..])[1..]
  {
    DownCounts(text, p, q, ok);
    if p < |text| {
      LinesFromStart(text, p);
    }
    if ok {
      LinesFromStart(text, q);
    }
  }

  // ---------- laws ----------

  /** From a line start, a move has one outcome. */
  lemma MoveIsDetermined(text: seq<byte>, move: Move, p: nat, q: nat, ok: bool, q': nat, ok': bool)
    requires Moved(text, move, p, q, ok) && Moved(text, move, p, q', ok')
    ensures q == q' && ok == ok'
  {
    match move
    case Top =>
    case Bottom =>
      if ok || ok' {
        StartsAreOrdered(text, 0, if ok then q else q');
      }
      if ok && ok' && q != q' {
        StartsAreOrdered(text, if q < q' then q else q', if q < q' then q' else q);
      }
    case Down =>
      if ok {
        NextCounts(text, p, q);
      }
      if ok' {
        NextCounts(text, p, q');
      }
    case Up =>
  }

  /** Scrolling up undoes a scroll down if and only if that did not end at position 1. */
  lemma UpUndoesDownIff(text: seq<byte>, p: nat, q: nat)
    requires IsStart(text, p) && Moved(text, Down, p, q, true)
    ensures Moved(text, Up, q, p, true) <==> q != 1
    ensures q == 1 ==> Moved(text, Up, q, q, false)
  {
  }

  /** Scrolling down always undoes a scroll up. */
  lemma DownUndoesUp(text: seq<byte>, p: nat, q: nat)
    requires IsStart(text, p) && Moved(text, Up, p, q, true)
    ensures Moved(text, Down, q, p, true)
  {
  }

  /** A run: the moves, the positions before and after them, and their results. */
  ghost predicate IsRun(text: seq<byte>, moves: seq<Move>, positions: seq<nat>, oks: seq<bool>) {
    && |positions| == |moves| + 1 && |oks| == |moves|
    && forall i :: 0 <= i < |moves| ==> Moved(text, moves[i], positions[i], positions[i + 1], oks[i])
  }

  /** Every run from a line start stays on line starts below the length, or 0. */
  lemma {:induction false} RunStaysOnLineStarts(text: seq<byte>, moves: seq<Move>, positions: seq<nat>,
                                                oks: seq<bool>, n: nat)
    requires IsRun(text, moves, positions, oks) && IsStart(text, positions[0]) && n <= |moves|
    ensures IsStart(text, positions[n])
  {
    if n == 0 {
    } else {
      RunStaysOnLineStarts(text, moves, positions, oks, n - 1);
      assert Moved(text, moves[n - 1], positions[n - 1], positions[n], oks[n - 1]);
    }
  }

  /** In a run that only scrolls down, exactly as many scrolls succeed as there are line starts left. */
  lemma {:induction false} DownsThatSucceed(text: seq<byte>, moves: seq<Move>, positions: seq<nat>,
                                            oks: seq<bool>, n: nat)
    requires IsRun(text, moves, positions, oks) && n < |moves|
    requires forall i :: 0 <= i < |moves| ==> moves[i] == Down
    ensures oks[n] <==> n < StartsAfter(text, positions[0])
    ensures var all := StartsAfter(text, positions[0]);
            StartsAfter(text, positions[n]) == if n < all then all - n else 0
  {
    if n > 0 {
      DownsThatSucceed(text, moves, positions, oks, n - 1);
      DownCounts(text, positions[n - 1], positions[n], oks[n - 1]);
    }
    assert moves[n] == Down;
    DownCounts(text, positions[n], positions[n + 1], oks[n]);
  }

  lemma DownCounts(text: seq<byte>, p: nat, q: nat, ok: bool)
    requires Moved(text, Down, p, q, ok)
    ensures ok <==> StartsAfter(text, p) > 0
    ensures StartsAfter(text, q) == StartsAfter(text, p) - if ok then 1 else 0
  {
    if ok {
      NextCounts(text, p, q);
    }
  }

  /** After a successful jump to the bottom, exactly the first nine scrolls down succeed. */
  lemma NineScrollsFromBottom(text: seq<byte>, p: nat, moves: seq<Move>, positions: seq<nat>, oks: seq<bool>, n: nat)
    requires IsRun(text, moves, positions, oks) && n < |moves|
    requires forall i :: 0 <= i < |moves| ==> moves[i] == Down
    requires Moved(text, Bottom, p, positions[0], true)
    ensures oks[n] <==> n < 9
  {
    DownsThatSucceed(text, moves, positions, oks, n);
  }
}
