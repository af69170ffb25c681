/** Well-formed UTF-8 (section 4 of RFC 3629), and the byte-to-character iterator of `wc`. */
module Utf8 {
  import opened Bytes
  import opened Sequences
  import opened ChunkedReader

  type Char = seq<byte>

  // ---------- well-formedness ----------

  predicate InRange(b: byte, low: int, high: int) {
    low <= b <= high
  }

  predicate IsTail(b: byte) {
    InRange(b, 0x80, 0xBF)
  }

  /** A complete character: UTF8-1 to UTF8-4 of the grammar. */
  predicate IsChar(c: seq<byte>) {
    match |c|
    case 1 => c[0] <= 0x7F
    case 2 => InRange(c[0], 0xC2, 0xDF) && IsTail(c[1])
    case 3 =>
      && IsTail(c[2])
      && (|| (c[0] == 0xE0 && InRange(c[1], 0xA0, 0xBF))
          || (InRange(c[0], 0xE1, 0xEC) && IsTail(c[1]))
          || (c[0] == 0xED && InRange(c[1], 0x80, 0x9F))
          || (InRange(c[0], 0xEE, 0xEF) && IsTail(c[1])))
    case 4 =>
      && IsTail(c[2]) && IsTail(c[3])
      && (|| (c[0] == 0xF0 && InRange(c[1], 0x90, 0xBF))
          || (InRange(c[0], 0xF1, 0xF3) && IsTail(c[1]))
          || (c[0] == 0xF4 && InRange(c[1], 0x80, 0x8F)))
    case _ => false
  }

  /** The width of a character by its first byte, 0 for a byte that starts none (`UTF8_CHAR_WIDTH`). */
  function Width(first: byte): nat {
    if first <= 0x7F then 1
    else if first <= 0xC1 then 0
    else if first <= 0xDF then 2
    else if first <= 0xEF then 3
    else if first <= 0xF4 then 4
    else 0
  }

  /** A sequence of complete characters. */
  predicate WellFormed(s: seq<byte>) {
    s == [] || (StartsWithChar(s) && WellFormed(s[Width(s[0])..]))
  }

  predicate StartsWithChar(s: seq<byte>)
    requires s != []
  {
    var n := Width(s[0]);
    1 <= n <= |s| && IsChar(s[..n])
  }

  /** The width table agrees with the grammar. */
  lemma WidthOfChar(c: seq<byte>)
    requires IsChar(c)
    ensures Width(c[0]) == |c|
  {
  }

  /** ... and so with the characters that start with a byte. */
  lemma WidthIff(first: byte, n: nat)
    ensures n > 0 ==> (Width(first) == n <==> exists c: Char :: IsChar(c) && |c| == n && c[0] == first)
    ensures Width(first) == 0 <==> !exists c: Char :: IsChar(c) && c[0] == first
  {
    if Width(first) > 0 {
      assert IsChar(CharWith(first));
    }
  }

  /** Some character with this first byte. */
  function CharWith(first: byte): (c: seq<byte>)
    requires Width(first) > 0
    ensures IsChar(c) && c[0] == first && |c| == Width(first)
  {
    var second := if first == 0xE0 || first == 0xF0 then 0xA0 else 0x80;
    match Width(first)
    case 1 => [first]
    case 2 => [first, second]
    case 3 => [first, second, 0x80]
    case _ => [first, second, 0x80, 0x80]
  }

  // ---------- code points ----------

  /** The numbers that characters stand for: all up to 10FFFF except the surrogates. */
  predicate IsScalar(n: int) {
    0 <= n <= 0xD7FF || 0xE000 <= n <= 0x10FFFF
  }

  /** The encoding of a number: six bits in each byte after the first. */
  function Encode(n: int): seq<byte>
    requires 0 <= n <= 0x10FFFF
  {
    if n <= 0x7F then [n]
    else if n <= 0x7FF then [0xC0 + n / 64, 0x80 + n % 64]
    else if n <= 0xFFFF then EncodeThree(n / 64 / 64, n / 64 % 64, n % 64)
    else EncodeFour(n / 64 / 64 / 64, n / 64 / 64 % 64, n / 64 % 64, n % 64)
  }

  function EncodeThree(x: int, y: int, z: int): seq<byte>
    requires 0 <= x < 16 && 0 <= y < 64 && 0 <= z < 64
  {
    [0xE0 + x, 0x80 + y, 0x80 + z]
  }

  function EncodeFour(w: int, x: int, y: int, z: int): seq<byte>
    requires 0 <= w <= 4 && 0 <= x < 64 && 0 <= y < 64 && 0 <= z < 64
  {
    [0xF0 + w, 0x80 + x, 0x80 + y, 0x80 + z]
  }

  lemma EncodedIsChar(n: int)
    requires IsScalar(n)
    ensures IsChar(Encode(n))
  {
    if n <= 0x7FF {
    } else if n <= 0xFFFF {
      var c := Encode(n);
      assert c[0] == 0xE0 ==> c[1] >= 0xA0;
      assert c[0] == 0xED ==> c[1] <= 0x9F;
    } else {
      var c := Encode(n);
      assert c[0] == 0xF0 ==> c[1] >= 0x90;
      assert c[0] == 0xF4 ==> c[1] <= 0x8F;
    }
  }

  /** Six bits more. */
  lemma Digit(high: int, low: int)
    requires 0 <= low < 64
    ensures (high * 64 + low) / 64 == high && (high * 64 + low) % 64 == low
  {
  }

  lemma TwoIsEncoded(c: seq<byte>) returns (n: int)
    requires |c| == 2 && IsChar(c)
    ensures IsScalar(n) && Encode(n) == c
  {
    n := (c[0] as int - 0xC0) * 64 + (c[1] as int - 0x80);
    Digit(c[0] as int - 0xC0, c[1] as int - 0x80);
  }

  lemma ThreeIsEncoded(c: seq<byte>) returns (n: int)
    requires |c| == 3 && IsChar(c)
    ensures IsScalar(n) && Encode(n) == c
  {
    var high := (c[0] as int - 0xE0) * 64 + (c[1] as int - 0x80);
    n := high * 64 + (c[2] as int - 0x80);
    Digit(high, c[2] as int - 0x80);
    Digit(c[0] as int - 0xE0, c[1] as int - 0x80);
  }

  lemma FourIsEncoded(c: seq<byte>) returns (n: int)
    requires |c| == 4 && IsChar(c)
    ensures IsScalar(n) && Encode(n) == c
  {
    var top := (c[0] as int - 0xF0) * 64 + (c[1] as int - 0x80);
    var high := top * 64 + (c[2] as int - 0x80);
    n := high * 64 + (c[3] as int - 0x80);
    Digit(high, c[3] as int - 0x80);
    Digit(top, c[2] as int - 0x80);
    Digit(c[0] as int - 0xF0, c[1] as int - 0x80);
  }

  /** Every character encodes a scalar value. */
  lemma CharIsEncoded(c: seq<byte>) returns (n: int)
    requires IsChar(c)
    ensures IsScalar(n) && Encode(n) == c
  {
    match |c|
    case 1 => n := c[0];
    case 2 => n := TwoIsEncoded(c);
    case 3 => n := ThreeIsEncoded(c);
    case 4 => n := FourIsEncoded(c);
  }

  /** So the characters are exactly the encodings of the scalar values. */
  lemma CharIff(c: seq<byte>)
    ensures IsChar(c) <==> exists n :: IsScalar(n) && Encode(n) == c
  {
    if IsChar(c) {
      var n := CharIsEncoded(c);
    }
    if n :| IsScalar(n) && Encode(n) == c {
      EncodedIsChar(n);
    }
  }

  /** No two numbers have the same encoding. */
  lemma EncodeIsInjective(n: int, m: int)
    requires 0 <= n <= 0x10FFFF && 0 <= m <= 0x10FFFF && Encode(n) == Encode(m)
    ensures n == m
  {
    assert |Encode(n)| == |Encode(m)|;
    assert forall k :: 0 <= k < |Encode(n)| ==> Encode(n)[k] == Encode(m)[k];
  }

  /** Only the one-byte character newline contains a newline byte. */
  lemma NoNewlineInside(c: seq<byte>, k: nat)
    requires IsChar(c) && 0 < k < |c|
    ensures c[k] != NEWLINE
  {
  }

  // ---------- characters ----------

  datatype CharResult = NoChar | GotChar(encoded: Char) | InvalidUnicode | IncompleteChar

  /** What `BytesToChars::next` does on these bytes: the panics of the source are results here. */
  function NextChar(bytes: seq<byte>): (r: CharResult)
    ensures r.GotChar? ==> 1 <= |r.encoded| <= |bytes| && r.encoded == bytes[..|r.encoded|]
  {
    if bytes == [] then NoChar
    else
      var n := Width(bytes[0]);
      if n == 0 then InvalidUnicode
      else if n > |bytes| then IncompleteChar
      else GotChar(bytes[..n])
  }

  /** When it panics: on a byte that starts no character, and when the characters with that byte are longer. */
  lemma PanicsIff(bytes: seq<byte>)
    requires bytes != []
    ensures NextChar(bytes).InvalidUnicode? <==> !exists c: Char :: IsChar(c) && c[0] == bytes[0]
    ensures NextChar(bytes).IncompleteChar? <==> exists c: Char :: IsChar(c) && c[0] == bytes[0] && |c| > |bytes|
  {
    WidthIff(bytes[0], Width(bytes[0]));
    if Width(bytes[0]) > |bytes| {
      assert IsChar(CharWith(bytes[0]));
    }
  }

  /** All characters, or None when the iterator panics on the way. */
  function Chars(bytes: seq<byte>): Option<seq<Char>> {
    match NextChar(bytes)
    case NoChar => Some([])
    case GotChar(encoded) =>
      (match Chars(bytes[|encoded|..])
       case Some(rest) => Some([encoded] + rest)
       case None => None)
    case _ => None
  }

  /** The iterator. */
  class BytesToChars {
    var bytes: seq<byte>

    constructor (input: seq<byte>)
      ensures bytes == input
    {
      bytes := input;
    }

    method NextByte() returns (b: Option<byte>)
      modifies this
      ensures old(bytes) == [] ==> b == None && bytes == []
      ensures old(bytes) != [] ==> b == Some(old(bytes)[0]) && bytes == old(bytes)[1..]
    {
      if bytes == [] {
        return None;
      }
      b := Some(bytes[0]);
      bytes := bytes[1..];
    }

    method Next() returns (r: CharResult)
      modifies this
      ensures r == NextChar(old(bytes))
      ensures r.GotChar? ==> bytes == old(bytes)[|r.encoded|..]
    {
      ghost var all := bytes;
      var first := NextByte();
      if first.None? {
        return NoChar;
      }
      var len := Width(first.value);
      if len == 0 {
        return InvalidUnicode;
      }
      var buf := [first.value];
      while |buf| < len
        invariant 1 <= |buf| <= len && |buf| <= |all|
        invariant buf == all[..|buf|] && bytes == all[|buf|..]
      {
        var b := NextByte();
        if b.None? {
          return IncompleteChar;
        }
        assert all[..|buf| + 1] == all[..|buf|] + [all[|buf|]];
        buf := buf + [b.value];
      }
      r := GotChar(buf);
    }
  }

  // ---------- concatenation and cuts ----------

  function Concat(chars: seq<Char>): seq<byte> {
    if chars == [] then [] else chars[0] + Concat(chars[1..])
  }

  lemma ConcatCons(encoded: Char, rest: seq<Char>)
    ensures Concat([encoded] + rest) == encoded + Concat(rest)
  {
    assert ([encoded] + rest)[1..] == rest;
  }

  /** On well-formed bytes no panic is reached, and the characters are the bytes. */
  lemma {:induction false} WellFormedChars(s: seq<byte>)
    requires WellFormed(s)
    ensures Chars(s).Some? && Concat(Chars(s).value) == s
    ensures forall n :: 0 <= n < |Chars(s).value| ==> IsChar(Chars(s).value[n])
    decreases |s|
  {
    if s == [] {
    } else {
      var n := Width(s[0]);
      WellFormedChars(s[n..]);
      ConcatCons(s[..n], Chars(s[n..]).value);
      assert s == s[..n] + s[n..];
    }
  }

  /** Bytes made of complete characters are well-formed, and are read as these characters. */
  lemma {:induction false} CharsOfConcat(chars: seq<Char>)
    requires forall n :: 0 <= n < |chars| ==> IsChar(chars[n])
    ensures WellFormed(Concat(chars)) && Chars(Concat(chars)) == Some(chars)
  {
    if chars == [] {
    } else {
      var first, rest := chars[0], Concat(chars[1..]);
      WidthOfChar(first);
      CharsOfConcat(chars[1..]);
      CharsCons(first, rest);
      assert (first + rest)[..|first|] == first && (first + rest)[|first|..] == rest;
      assert chars == [first] + chars[1..];
    }
  }

  /** A byte string that starts with a character starts with the same one after something is appended. */
  lemma StartsAppend(s: seq<byte>, t: seq<byte>)
    requires s != [] && Width(s[0]) <= |s|
    ensures StartsWithChar(s + t) <==> StartsWithChar(s)
    ensures NextChar(s + t) == NextChar(s)
    ensures (s + t)[Width(s[0])..] == s[Width(s[0])..] + t
  {
    assert (s + t)[..Width(s[0])] == s[..Width(s[0])];
  }

  /** A newline byte cannot lie inside a character, so well-formed text may be cut at newlines. */
  lemma {:induction false} CutAtNewline(a: seq<byte>, b: seq<byte>)
    ensures WellFormed(a + [NEWLINE] + b) <==> WellFormed(a) && WellFormed(b)
    decreases |a|
  {
    var s := a + [NEWLINE] + b;
    if a == [] {
      assert s == [NEWLINE] + b;
      assert s[..1] == [NEWLINE] && s[1..] == b;
    } else {
      var n := Width(a[0]);
      assert s == a + ([NEWLINE] + b);
      if n <= |a| {
        StartsAppend(a, [NEWLINE] + b);
        if n >= 1 {
          assert s[n..] == a[n..] + [NEWLINE] + b;
          CutAtNewline(a[n..], b);
        }
      } else if n <= |s| && IsChar(s[..n]) {
        assert s[..n][|a|] == NEWLINE;
        NoNewlineInside(s[..n], |a|);
      }
    }
  }

  lemma CharsCons(first: seq<byte>, rest: seq<byte>)
    requires first != [] && Width(first[0]) == |first|
    ensures Chars(first + rest) == match Chars(rest) case Some(chars) => Some([first] + chars) case None => None
  {
    assert (first + rest)[..|first|] == first && (first + rest)[|first|..] == rest;
  }

  lemma Prepend(first: Char, rest: seq<byte>, b: seq<byte>, restChars: seq<Char>, bChars: seq<Char>)
    requires first != [] && Width(first[0]) == |first|
    requires Chars(rest) == Some(restChars)
    requires Chars(rest + [NEWLINE] + b) == Some(restChars + [[NEWLINE]] + bChars)
    ensures Chars(first + rest) == Some([first] + restChars)
    ensures Chars(first + rest + [NEWLINE] + b) == Some(([first] + restChars) + [[NEWLINE]] + bChars)
  {
    CharsCons(first, rest);
    CharsCons(first, rest + [NEWLINE] + b);
    AssociativeFour(first, rest, [NEWLINE], b);
    AssociativeFour([first], restChars, [[NEWLINE]], bChars);
  }

  /** The characters of well-formed text cut at a newline, with the newline put back. */
  lemma {:induction false} CharsAtNewline(a: seq<byte>, b: seq<byte>)
    requires WellFormed(a) && WellFormed(b)
    ensures Chars(a).Some? && Chars(b).Some?
    ensures Chars(a + [NEWLINE] + b) == Some(Chars(a).value + [[NEWLINE]] + Chars(b).value)
    decreases |a|
  {
    WellFormedChars(a);
    WellFormedChars(b);
    if a == [] {
      CharsCons([NEWLINE], b);
      assert a + [NEWLINE] + b == [NEWLINE] + b;
      assert [] + [[NEWLINE]] + Chars(b).value == [[NEWLINE]] + Chars(b).value;
    } else {
      var first, rest := a[..Width(a[0])], a[Width(a[0])..];
      assert a == first + rest;
      CharsAtNewline(rest, b);
      Prepend(first, rest, b, Chars(rest).value, Chars(b).value);
    }
  }

  // ---------- chunks of text ----------

  /** What an item contributes to the stream: all of its bytes are characters of the text. */
  ghost predicate AllWellFormed(items: seq<Item>) {
    forall n :: 0 <= n < |items| ==> WellFormed(ItemBytes(items[n]))
  }

  lemma {:induction false} RebuildWellFormed(items: seq<Item>)
    ensures WellFormed(Rebuild(items, NEWLINE)) <==> AllWellFormed(items)
    decreases |items|
  {
    if |items| <= 1 {
    } else {
      RebuildWellFormed(items[1..]);
      CutAtNewline(ItemBytes(items[0]), Rebuild(items[1..], NEWLINE));
      if AllWellFormed(items[1..]) && WellFormed(ItemBytes(items[0])) {
        forall n | 0 <= n < |items| ensures WellFormed(ItemBytes(items[n])) {
          assert n == 0 || items[n] == items[1..][n - 1];
        }
      }
    }
  }

  /** Cutting on newlines respects character boundaries: the stream is well-formed exactly when each item is. */
  lemma ItemsWellFormed(stream: seq<byte>, m: nat)
    ensures WellFormed(stream) <==> AllWellFormed(Items(stream, NEWLINE, m))
  {
    var items := Items(stream, NEWLINE, m);
    RebuildCases(stream, NEWLINE, m);
    RebuildWellFormed(items);
    FinalNewline(Rebuild(items, NEWLINE));
  }

  lemma FinalNewline(text: seq<byte>)
    ensures WellFormed(text + [NEWLINE]) <==> WellFormed(text)
    ensures WellFormed(text) ==> Chars(text).Some? && Chars(text + [NEWLINE]) == Some(Chars(text).value + [[NEWLINE]])
  {
    assert text + [NEWLINE] + [] == text + [NEWLINE];
    CutAtNewline(text, []);
    if WellFormed(text) {
      CharsAtNewline(text, []);
      assert Chars(text).value + [[NEWLINE]] + [] == Chars(text).value + [[NEWLINE]];
    }
  }

  /** The characters of all items, with the removed newlines put back between them. */
  ghost function RebuildChars(items: seq<Item>): seq<Char>
    requires AllWellFormed(items)
  {
    if items == [] then []
    else
      WellFormedChars(ItemBytes(items[0]));
      var first := Chars(ItemBytes(items[0])).value;
      if |items| == 1 then first
      else
        assert forall n :: 0 <= n < |items[1..]| ==> items[1..][n] == items[n + 1];
        first + [[NEWLINE]] + RebuildChars(items[1..])
  }

  lemma {:induction false} RebuildCharsAre(items: seq<Item>)
    requires AllWellFormed(items)
    ensures Chars(Rebuild(items, NEWLINE)) == Some(RebuildChars(items))
    decreases |items|
  {
    if items != [] {
      WellFormedChars(ItemBytes(items[0]));
    }
    if |items| <= 1 {
    } else {
      assert forall n :: 0 <= n < |items[1..]| ==> items[1..][n] == items[n + 1];
      RebuildCharsAre(items[1..]);
      RebuildWellFormed(items[1..]);
      CharsAtNewline(ItemBytes(items[0]), Rebuild(items[1..], NEWLINE));
    }
  }

  /** Decoding the items one by one is decoding the stream. */
  lemma ItemsDecode(stream: seq<byte>, m: nat)
    requires WellFormed(stream)
    ensures AllWellFormed(Items(stream, NEWLINE, m))
    ensures var chars := RebuildChars(Items(stream, NEWLINE, m));
            Chars(stream) == Some(if Stripped(stream, NEWLINE, m) then chars + [[NEWLINE]] else chars)
  {
    var items := Items(stream, NEWLINE, m);
    ItemsWellFormed(stream, m);
    RebuildCharsAre(items);
    RebuildWellFormed(items);
    RebuildCases(stream, NEWLINE, m);
    FinalNewline(Rebuild(items, NEWLINE));
  }
}
