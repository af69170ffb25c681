/** Byte strings, their lexicographic order, and sequences of lines sorted by it. */
module Bytes {
  import opened Sequences

  type byte = b: int | 0 <= b < 256

  /** A line of text without its newline (`Box<[u8]>` in the source). */
  datatype Line = Line(bytes: seq<byte>)

  const NEWLINE: byte := 10
  const CARRIAGE_RETURN: byte := 13

  datatype Option<+T> = None | Some(value: T)

  // ---------- the order of byte strings ----------

  /** Lexicographic order, a proper prefix coming first. */
  predicate LeqBytes(a: seq<byte>, b: seq<byte>) {
    if a == [] then true
    else if b == [] then false
    else if a[0] == b[0] then LeqBytes(a[1..], b[1..])
    else a[0] < b[0]
  }

  /** The order of `Box<[u8]>`. */
  predicate Leq(a: Line, b: Line) {
    LeqBytes(a.bytes, b.bytes)
  }

  /** What the order means: a is a prefix of b, or has the smaller byte at the first place where they differ. */
  lemma LeqIff(a: Line, b: Line)
    ensures Leq(a, b) <==>
              exists k: nat ::
                && k <= |a.bytes| && k <= |b.bytes| && a.bytes[..k] == b.bytes[..k]
                && (k == |a.bytes| || (k < |b.bytes| && a.bytes[k] < b.bytes[k]))
  {
    LeqBytesIff(a.bytes, b.bytes);
    assert forall k: nat :: PartsAt(a.bytes, b.bytes, k) <==>
      && k <= |a.bytes| && k <= |b.bytes| && a.bytes[..k] == b.bytes[..k]
      && (k == |a.bytes| || (k < |b.bytes| && a.bytes[k] < b.bytes[k]));
  }

  predicate PartsAt(a: seq<byte>, b: seq<byte>, k: nat) {
    && k <= |a| && k <= |b| && a[..k] == b[..k]
    && (k == |a| || (k < |b| && a[k] < b[k]))
  }

  lemma {:induction false} LeqBytesIff(a: seq<byte>, b: seq<byte>)
    ensures LeqBytes(a, b) <==> exists k: nat :: PartsAt(a, b, k)
  {
    if a == [] {
      assert PartsAt(a, b, 0);
    } else if b == [] || a[0] != b[0] {
      assert PartsAt(a, b, 0) <==> b != [] && a[0] < b[0];
      forall k: nat | k > 0 ensures !PartsAt(a, b, k) {
        assert b != [] && k <= |a| && k <= |b| ==> a[..k][0] != b[..k][0];
      }
    } else {
      LeqBytesIff(a[1..], b[1..]);
      if k: nat :| PartsAt(a, b, k) {
        PartsLater(a, b, k - 1);
      }
      if k: nat :| PartsAt(a[1..], b[1..], k) {
        PartsLater(a, b, k);
      }
    }
  }

  lemma PartsLater(a: seq<byte>, b: seq<byte>, k: nat)
    requires a != [] && b != [] && a[0] == b[0]
    ensures PartsAt(a, b, k + 1) <==> PartsAt(a[1..], b[1..], k)
  {
    if k < |a| && k < |b| {
      assert a[..k + 1] == [a[0]] + a[1..][..k] && b[..k + 1] == [b[0]] + b[1..][..k];
      assert a[..k + 1] == b[..k + 1] ==> a[1..][..k] == a[..k + 1][1..] && b[1..][..k] == b[..k + 1][1..];
    }
  }

  lemma {:induction false} BytesReflexive(a: seq<byte>)
    ensures LeqBytes(a, a)
  {
    if a == [] {
    } else {
      BytesReflexive(a[1..]);
    }
  }

  lemma {:induction false} BytesTotal(a: seq<byte>, b: seq<byte>)
    ensures LeqBytes(a, b) || LeqBytes(b, a)
  {
    if a == [] || b == [] {
    } else {
      BytesTotal(a[1..], b[1..]);
    }
  }

  lemma {:induction false} BytesAntisymmetric(a: seq<byte>, b: seq<byte>)
    requires LeqBytes(a, b) && LeqBytes(b, a)
    ensures a == b
  {
    if a == [] {
    } else {
      BytesAntisymmetric(a[1..], b[1..]);
      assert a == [a[0]] + a[1..] && b == [b[0]] + b[1..];
    }
  }

  lemma {:induction false} BytesTransitive(a: seq<byte>, b: seq<byte>, c: seq<byte>)
    requires LeqBytes(a, b) && LeqBytes(b, c)
    ensures LeqBytes(a, c)
  {
    if a != [] && a[0] == b[0] == c[0] {
      BytesTransitive(a[1..], b[1..], c[1..]);
    }
  }

  lemma LeqReflexive(a: Line)
    ensures Leq(a, a)
  {
    BytesReflexive(a.bytes);
  }

  lemma LeqTotal(a: Line, b: Line)
    ensures Leq(a, b) || Leq(b, a)
  {
    BytesTotal(a.bytes, b.bytes);
  }

  lemma LeqAntisymmetric(a: Line, b: Line)
    requires Leq(a, b) && Leq(b, a)
    ensures a == b
  {
    BytesAntisymmetric(a.bytes, b.bytes);
  }

  lemma LeqTransitive(a: Line, b: Line, c: Line)
    requires Leq(a, b) && Leq(b, c)
    ensures Leq(a, c)
  {
    BytesTransitive(a.bytes, b.bytes, c.bytes);
  }

  // ---------- sorted sequences ----------

  ghost predicate Sorted(s: seq<Line>) {
    forall i, j :: 0 <= i < j < |s| ==> Leq(s[i], s[j])
  }

  /** x comes before everything in the bag. */
  ghost predicate Below(x: Line, bag: multiset<Line>) {
    forall y :: y in bag ==> Leq(x, y)
  }

  ghost predicate AllEqual(bag: multiset<Line>) {
    forall x, y :: x in bag && y in bag ==> x == y
  }

  /** The head of a sorted sequence is below its elements. */
  lemma SortedHeadBelow(s: seq<Line>)
    requires Sorted(s) && s != []
    ensures Below(s[0], multiset(s))
  {
    forall y | y in multiset(s) ensures Leq(s[0], y) {
      var k :| 0 <= k < |s| && s[k] == y;
      LeqReflexive(y);
    }
  }

  /** Two sorted parts make a sorted whole when the first part is below the second. */
  lemma SortedConcat(a: seq<Line>, b: seq<Line>)
    requires Sorted(a) && Sorted(b)
    requires forall x :: x in a ==> Below(x, multiset(b))
    ensures Sorted(a + b)
  {
    var s := a + b;
    forall i, j | 0 <= i < j < |s| ensures Leq(s[i], s[j]) {
      if i < |a| <= j {
        assert s[i] in a && s[j] == b[j - |a|] && s[j] in multiset(b);
      }
    }
  }

  /** A sorted permutation is unique. */
  lemma {:induction false} SortedUnique(a: seq<Line>, b: seq<Line>)
    requires Sorted(a) && Sorted(b) && multiset(a) == multiset(b)
    ensures a == b
  {
    if a == [] {
      assert |b| == |multiset(b)| == 0;
    } else {
      assert |b| == |multiset(b)| == |multiset(a)| == |a|;
      SameLeast(a, b);
      MultisetOfTail(a);
      MultisetOfTail(b);
      SortedTail(a);
      SortedTail(b);
      SortedUnique(a[1..], b[1..]);
      SameHeadAndTail(a, b);
    }
  }

  lemma SortedTail(s: seq<Line>)
    requires Sorted(s) && s != []
    ensures Sorted(s[1..])
  {
  }

  lemma SameLeast(a: seq<Line>, b: seq<Line>)
    requires Sorted(a) && Sorted(b) && multiset(a) == multiset(b) && a != [] && b != []
    ensures a[0] == b[0]
  {
    assert a[0] in multiset(b) && b[0] in multiset(a);
    SortedHeadBelow(a);
    SortedHeadBelow(b);
    LeqAntisymmetric(a[0], b[0]);
  }

  /** The reference sort: insertion of one line at a time. */
  function SortLines(s: seq<Line>): (r: seq<Line>)
    ensures multiset(r) == multiset(s)
  {
    if s == [] then [] else
      assert s == [s[0]] + s[1..];
      InsertLine(s[0], SortLines(s[1..]))
  }

  function InsertLine(x: Line, s: seq<Line>): (r: seq<Line>)
    ensures multiset(r) == multiset{x} + multiset(s)
  {
    if s == [] || Leq(x, s[0]) then [x] + s else
      assert s == [s[0]] + s[1..];
      [s[0]] + InsertLine(x, s[1..])
  }

  lemma {:induction false} InsertSorted(x: Line, s: seq<Line>)
    requires Sorted(s)
    ensures Sorted(InsertLine(x, s))
  {
    if s == [] {
    } else {
      SortedHeadBelow(s);
      if Leq(x, s[0]) {
        forall y | y in multiset(s) ensures Leq(x, y) {
          LeqTransitive(x, s[0], y);
        }
        SortedConcat([x], s);
      } else {
        LeqTotal(x, s[0]);
        InsertSorted(x, s[1..]);
        assert s == [s[0]] + s[1..];
        forall y | y in multiset(InsertLine(x, s[1..])) ensures Leq(s[0], y) {
          assert y == x || y in multiset(s);
        }
        SortedConcat([s[0]], InsertLine(x, s[1..]));
      }
    }
  }

  lemma {:induction false} SortLinesSorted(s: seq<Line>)
    ensures Sorted(SortLines(s))
  {
    if s == [] {
    } else {
      SortLinesSorted(s[1..]);
      InsertSorted(s[0], SortLines(s[1..]));
    }
  }

  // ---------- searching and counting bytes ----------

  /** The first position of b in s, or |s|. */
  function FirstIndex(s: seq<byte>, b: byte): (r: nat)
    ensures r <= |s| && b !in s[..r]
    ensures r < |s| ==> s[r] == b
  {
    if s == [] || s[0] == b then 0 else
      var r := 1 + FirstIndex(s[1..], b);
      assert s[..r] == [s[0]] + s[1..][..r - 1];
      r
  }

  /** How often b occurs in s. */
  function CountByte(s: seq<byte>, b: byte): nat {
    if s == [] then 0 else (if s[0] == b then 1 else 0) + CountByte(s[1..], b)
  }

  /** ... which is its multiplicity. */
  lemma {:induction false} CountIsMultiplicity(s: seq<byte>, b: byte)
    ensures CountByte(s, b) == multiset(s)[b]
  {
    if s == [] {
    } else {
      CountIsMultiplicity(s[1..], b);
      MultisetOfTail(s);
    }
  }

  lemma {:induction false} CountByteConcat(s: seq<byte>, t: seq<byte>, b: byte)
    ensures CountByte(s + t, b) == CountByte(s, b) + CountByte(t, b)
  {
    if s == [] {
      assert s + t == t;
    } else {
      assert (s + t)[1..] == s[1..] + t;
      CountByteConcat(s[1..], t, b);
    }
  }

  lemma {:induction false} CountByteZero(s: seq<byte>, b: byte)
    ensures CountByte(s, b) == 0 <==> b !in s
  {
    if s == [] {
    } else {
      CountByteZero(s[1..], b);
      assert s == [s[0]] + s[1..];
    }
  }
}
