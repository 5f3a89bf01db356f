/** Line and byte limits of the agent memory index (lib/agent/agent_memory_index.py), over UTF-8
    as laid down in section 3 of RFC 3629. Text is a sequence of Unicode scalar values. */
module MemoryIndex {
  import opened VerbatimCoverage

  const INDEX_MAX_LINES: nat := 200
  const INDEX_MAX_BYTES: nat := 25_000

  // ----- UTF-8 -----

  function EncodeChar(c: char): (r: seq<int>)
    ensures 1 <= |r| <= 4
  {
    var n := c as int;
    if n < 0x80 then [n]
    else if n < 0x800 then [0xC0 + n / 0x40, 0x80 + n % 0x40]
    else if n < 0x10000 then [0xE0 + n / 0x1000, 0x80 + n / 0x40 % 0x40, 0x80 + n % 0x40]
    else [0xF0 + n / 0x40000, 0x80 + n / 0x1000 % 0x40, 0x80 + n / 0x40 % 0x40, 0x80 + n % 0x40]
  }

  function Encode(s: string): seq<int> {
    if s == "" then [] else EncodeChar(s[0]) + Encode(s[1..])
  }

  predicate Continuation(b: int) {
    0x80 <= b < 0xC0
  }

  /** Length of the well-formed sequence at the front of `bs` (0 when there is none) and the scalar
      value it encodes; overlong forms, surrogates and values above U+10FFFF are not well formed. */
  function DecodeFirst(bs: seq<int>): (r: (nat, int))
    ensures r.0 <= |bs|
    ensures r.0 > 0 ==> 0 <= r.1 < 0xD800 || 0xE000 <= r.1 < 0x110000
  {
    if bs == [] then (0, 0)
    else if 0 <= bs[0] < 0x80 then (1, bs[0])
    else if 0xC2 <= bs[0] < 0xE0 && |bs| >= 2 && Continuation(bs[1]) then
      (2, (bs[0] - 0xC0) * 0x40 + (bs[1] - 0x80))
    else if 0xE0 <= bs[0] < 0xF0 && |bs| >= 3 && Continuation(bs[1]) && Continuation(bs[2]) then
      var n := (bs[0] - 0xE0) * 0x1000 + (bs[1] - 0x80) * 0x40 + (bs[2] - 0x80);
      if n < 0x800 || 0xD800 <= n < 0xE000 then (0, 0) else (3, n)
    else if 0xF0 <= bs[0] < 0xF5 && |bs| >= 4 && Continuation(bs[1]) && Continuation(bs[2]) && Continuation(bs[3]) then
      var n := (bs[0] - 0xF0) * 0x40000 + (bs[1] - 0x80) * 0x1000 + (bs[2] - 0x80) * 0x40 + (bs[3] - 0x80);
      if n < 0x10000 || n >= 0x110000 then (0, 0) else (4, n)
    else (0, 0)
  }

  /** Decoding with `errors="ignore"`: bytes that start no well-formed sequence are skipped. */
  function DecodeIgnoring(bs: seq<int>): string {
    if bs == [] then ""
    else
      var (n, v) := DecodeFirst(bs);
      if n == 0 then DecodeIgnoring(bs[1..]) else [v as char] + DecodeIgnoring(bs[n..])
  }

  // ----- The index -----

  datatype Stats = Stats(lineCount: nat, byteSize: nat) {
    predicate OverLimit() {
      lineCount > INDEX_MAX_LINES || byteSize > INDEX_MAX_BYTES
    }
  }

  function Count(s: string, c: char): nat {
    if s == "" then 0 else (if s[0] == c then 1 else 0) + Count(s[1..], c)
  }

  function IndexStats(text: string): Stats {
    var trimmed := Strip(text);
    if trimmed == "" then Stats(0, 0) else Stats(Count(trimmed, '\n') + 1, |Encode(trimmed)|)
  }

  function SplitLines(s: string): (r: seq<string>)
    ensures |r| == Count(s, '\n') + 1
  {
    if s == "" then [""]
    else
      var rest := SplitLines(s[1..]);
      if s[0] == '\n' then [""] + rest else [[s[0]] + rest[0]] + rest[1..]
  }

  function JoinLines(lines: seq<string>): string {
    if lines == [] then ""
    else if |lines| == 1 then lines[0]
    else lines[0] + "\n" + JoinLines(lines[1..])
  }

  /** The first lines of the text, at most as many as the limit. */
  function FirstLines(s: string): string {
    var lines := SplitLines(s);
    JoinLines(if |lines| <= INDEX_MAX_LINES then lines else lines[..INDEX_MAX_LINES])
  }

  /** Index of the last newline byte, -1 when there is none. */
  function FindLastNewline(bs: seq<int>): (r: int)
    ensures -1 <= r < |bs|
    ensures r >= 0 ==> bs[r] == 10
    ensures forall i | r < i < |bs| :: bs[i] != 10
  {
    if bs == [] then -1
    else if bs[|bs| - 1] == 10 then |bs| - 1
    else FindLastNewline(bs[..|bs| - 1])
  }

  /** The loaded part of a stripped text. */
  function Kept(trimmed: string): string {
    var kept := FirstLines(trimmed);
    var encoded := Encode(kept);
    if |encoded| > INDEX_MAX_BYTES then
      var head := encoded[..INDEX_MAX_BYTES];
      var at := FindLastNewline(head);
      DecodeIgnoring(if at > 0 then head[..at] else head)
    else kept
  }

  /** `notice` renders the line that tells how large the whole index is. */
  function Truncate(text: string, notice: Stats -> string): string {
    var trimmed := Strip(text);
    if trimmed == "" then ""
    else if !IndexStats(trimmed).OverLimit() then trimmed
    else Kept(trimmed) + "\n" + notice(IndexStats(trimmed))
  }

  // ----- Code points and bytes -----

  lemma EncodedCharDecodes(c: char, rest: seq<int>)
    ensures DecodeFirst(EncodeChar(c) + rest) == (|EncodeChar(c)|, c as int)
  {
    var n, bs := c as int, EncodeChar(c) + rest;
    assert forall i | 0 <= i < |EncodeChar(c)| :: bs[i] == EncodeChar(c)[i];
    if n >= 0x800 { SixBitDigits(n); }
  }

  lemma LastDigit(a: nat, b: nat)
    requires b < 0x40
    ensures (a * 0x40 + b) / 0x40 == a && (a * 0x40 + b) % 0x40 == b
  {
  }

  lemma ThreeDigits(a: nat, b: nat, c: nat)
    requires b < 0x40 && c < 0x40
    ensures var n := a * 0x1000 + b * 0x40 + c;
      n / 0x1000 == a && n / 0x40 % 0x40 == b && n % 0x40 == c && n / 0x40 == a * 0x40 + b
  {
    LastDigit(a * 0x40 + b, c);
    LastDigit(a, b);
    SixBitDigits(a * 0x1000 + b * 0x40 + c);
  }

  lemma FourDigits(a: nat, b: nat, c: nat, d: nat)
    requires b < 0x40 && c < 0x40 && d < 0x40
    ensures var n := a * 0x40000 + b * 0x1000 + c * 0x40 + d;
      n / 0x40000 == a && n / 0x1000 % 0x40 == b && n / 0x40 % 0x40 == c && n % 0x40 == d
  {
    ThreeDigits(a * 0x40 + b, c, d);
    LastDigit(a, b);
  }

  /** What is decoded is well formed: the bytes are the encoding of the code point. */
  lemma DecodedIsEncoded(bs: seq<int>)
    requires forall i | 0 <= i < |bs| :: 0 <= bs[i] < 256
    ensures var (n, v) := DecodeFirst(bs);
      n > 0 ==> bs[..n] == EncodeChar(v as char)
  {
    var (n, v) := DecodeFirst(bs);
    if n == 2 {
      LastDigit(bs[0] - 0xC0, bs[1] - 0x80);
      assert bs[..2] == [bs[0], bs[1]];
    } else if n == 3 {
      ThreeDigits(bs[0] - 0xE0, bs[1] - 0x80, bs[2] - 0x80);
      assert bs[..3] == [bs[0], bs[1], bs[2]];
    } else if n == 4 {
      FourDigits(bs[0] - 0xF0, bs[1] - 0x80, bs[2] - 0x80, bs[3] - 0x80);
      assert bs[..4] == [bs[0], bs[1], bs[2], bs[3]];
    }
  }

  lemma SixBitDigits(n: nat)
    ensures n == n / 0x1000 * 0x1000 + n / 0x40 % 0x40 * 0x40 + n % 0x40
    ensures n / 0x1000 == n / 0x40000 * 0x40 + n / 0x1000 % 0x40
  {
    assert n / 0x1000 == n / 0x40 / 0x40 && n / 0x40000 == n / 0x1000 / 0x40;
  }

  /** Bytes cut off inside one code point decode to nothing. */
  lemma BrokenCharIsDropped(c: char, m: nat)
    requires m < |EncodeChar(c)|
    ensures DecodeIgnoring(EncodeChar(c)[..m]) == ""
  {
    var p := EncodeChar(c)[..m];
    if m > 0 {
      assert DecodeFirst(p).0 == 0;
      ContinuationsAreDropped(p[1..]);
    }
  }

  lemma {:induction false} ContinuationsAreDropped(bs: seq<int>)
    requires forall i | 0 <= i < |bs| :: Continuation(bs[i])
    ensures DecodeIgnoring(bs) == ""
  {
    if bs != [] {
      assert Continuation(bs[0]);
      ContinuationsAreDropped(bs[1..]);
    }
  }

  lemma Regroup(a: seq<int>, b: seq<int>, c: seq<int>)
    ensures (a + b) + c == a + (b + c)
  {
  }

  lemma EncodedHead(s: string, tail: seq<int>)
    requires s != ""
    ensures Encode(s) + tail == EncodeChar(s[0]) + (Encode(s[1..]) + tail)
  {
    Regroup(EncodeChar(s[0]), Encode(s[1..]), tail);
  }

  lemma HeadAndRest(s: string, t: string)
    requires s != ""
    ensures [s[0]] + (s[1..] + t) == s + t
  {
  }

  lemma {:induction false} DecodeAfterEncoded(s: string, tail: seq<int>)
    ensures DecodeIgnoring(Encode(s) + tail) == s + DecodeIgnoring(tail)
  {
    if s == "" {
      assert Encode(s) + tail == tail;
    } else {
      EncodedHead(s, tail);
      DecodeOneMore(s[0], Encode(s[1..]) + tail);
      DecodeAfterEncoded(s[1..], tail);
      HeadAndRest(s, DecodeIgnoring(tail));
    }
  }

  lemma DecodeOneMore(c: char, rest: seq<int>)
    ensures DecodeIgnoring(EncodeChar(c) + rest) == [c] + DecodeIgnoring(rest)
  {
    EncodedCharDecodes(c, rest);
    assert (EncodeChar(c) + rest)[|EncodeChar(c)|..] == rest;
  }

  lemma {:induction false} EncodeOfConcat(a: string, b: string)
    ensures Encode(a + b) == Encode(a) + Encode(b)
  {
    if a == "" {
      assert a + b == b;
    } else {
      EncodeOfConcat(a[1..], b);
      assert (a + b)[1..] == a[1..] + b;
      Regroup(EncodeChar(a[0]), Encode(a[1..]), Encode(b));
    }
  }

  lemma EncodeOfPrefix(s: string, i: nat)
    requires i < |s|
    ensures Encode(s[..i + 1]) == EncodeChar(s[0]) + Encode(s[1..][..i])
  {
    assert s[..i + 1][1..] == s[1..][..i];
  }

  /** Every byte position lies at, or strictly inside, one code point. */
  lemma {:induction false} CutPoint(s: string, k: nat) returns (j: nat, m: nat)
    requires k <= |Encode(s)|
    ensures j <= |s| && |Encode(s[..j])| + m == k
    ensures j == |s| ==> m == 0
    ensures j < |s| ==> m < |EncodeChar(s[j])|
    ensures Encode(s)[..k] == Encode(s[..j]) + (if j < |s| then EncodeChar(s[j])[..m] else [])
  {
    if s == "" {
      j, m := 0, 0;
    } else {
      var e := EncodeChar(s[0]);
      if k < |e| {
        j, m := 0, k;
        SliceWithin(e, Encode(s[1..]), k);
      } else {
        var i;
        i, m := CutPoint(s[1..], k - |e|);
        j := i + 1;
        EncodeOfPrefix(s, i);
        SliceAfter(e, Encode(s[1..]), k);
      }
    }
  }

  lemma SliceWithin(a: seq<int>, b: seq<int>, k: nat)
    requires k <= |a|
    ensures (a + b)[..k] == a[..k]
  {
  }

  lemma SliceAfter(a: seq<int>, b: seq<int>, k: nat)
    requires |a| <= k <= |a| + |b|
    ensures (a + b)[..k] == a + b[..k - |a|]
  {
  }

  /** A newline byte is a whole code point, so it is never part of a longer sequence. */
  lemma NewlineByteIsNewline(c: char, i: nat)
    requires i < |EncodeChar(c)| && EncodeChar(c)[i] == 10
    ensures c == '\n' && EncodeChar(c) == [10]
  {
  }

  /** Where the encoded text holds a newline byte, the text itself holds a newline. */
  lemma NewlineCut(s: string, k: nat) returns (j: nat)
    requires k < |Encode(s)| && Encode(s)[k] == 10
    ensures j < |s| && s[j] == '\n' && Encode(s[..j]) == Encode(s)[..k]
  {
    var m;
    j, m := CutPoint(s, k);
    assert s[..|s|] == s;
    EncodeAround(s, j);
    assert Encode(s)[k] == EncodeChar(s[j])[m];
    NewlineByteIsNewline(s[j], m);
  }

  /** The encoding cut at one character. */
  lemma EncodeAround(s: string, j: nat)
    requires j < |s|
    ensures Encode(s) == Encode(s[..j]) + EncodeChar(s[j]) + Encode(s[j + 1..])
  {
    assert s == s[..j] + s[j..] && s[j..][1..] == s[j + 1..];
    EncodeOfConcat(s[..j], s[j..]);
    Regroup(Encode(s[..j]), EncodeChar(s[j]), Encode(s[j + 1..]));
  }

  // ----- What is kept -----

  /** The first `n` lines form a prefix that ends at the end of a line. */
  lemma {:induction false} TakeLines(s: string, n: nat)
    requires 1 <= n <= |SplitLines(s)|
    ensures var p := JoinLines(SplitLines(s)[..n]);
      && p <= s && Count(p, '\n') == n - 1
      && (n == |SplitLines(s)| ==> p == s)
      && (n < |SplitLines(s)| ==> |p| < |s| && s[|p|] == '\n')
  {
    var lines := SplitLines(s);
    if s == "" {
    } else {
      var rest := SplitLines(s[1..]);
      if s[0] == '\n' {
        if n > 1 {
          TakeLines(s[1..], n - 1);
          assert lines[..n] == [""] + rest[..n - 1];
          JoinAfterBreak(rest[..n - 1]);
          OneMore(s, JoinLines(rest[..n - 1]));
        }
      } else {
        TakeLines(s[1..], n);
        assert lines[..n] == [[s[0]] + rest[..n][0]] + rest[..n][1..];
        JoinLongerFirst(s[0], rest[..n]);
        OneMore(s, JoinLines(rest[..n]));
      }
    }
  }

  /** A prefix of the rest with the first character in front. */
  lemma OneMore(s: string, p: string)
    requires s != "" && p <= s[1..]
    ensures var q := [s[0]] + p;
      && q <= s && Count(q, '\n') == (if s[0] == '\n' then 1 else 0) + Count(p, '\n')
      && (p == s[1..] ==> q == s) && (|p| < |s[1..]| ==> |q| < |s| && s[|q|] == s[1..][|p|])
  {
    assert ([s[0]] + p)[1..] == p;
    assert s == [s[0]] + s[1..];
  }

  lemma JoinAfterBreak(lines: seq<string>)
    requires lines != []
    ensures JoinLines([""] + lines) == "\n" + JoinLines(lines)
  {
    assert ([""] + lines)[1..] == lines;
  }

  lemma JoinLongerFirst(c: char, lines: seq<string>)
    requires lines != []
    ensures JoinLines([[c] + lines[0]] + lines[1..]) == [c] + JoinLines(lines)
  {
    var longer := [[c] + lines[0]] + lines[1..];
    assert longer[1..] == lines[1..];
  }

  lemma FirstLinesIsLinePrefix(s: string)
    ensures var p := FirstLines(s);
      && p <= s && Count(p, '\n') + 1 <= INDEX_MAX_LINES
      && (p == s <==> Count(s, '\n') + 1 <= INDEX_MAX_LINES)
      && (p != s ==> Count(p, '\n') + 1 == INDEX_MAX_LINES && |p| < |s| && s[|p|] == '\n')
  {
    var lines := SplitLines(s);
    var n := if |lines| <= INDEX_MAX_LINES then |lines| else INDEX_MAX_LINES;
    assert lines[..|lines|] == lines;
    TakeLines(s, n);
  }

  lemma {:induction false} CountOfPrefix(s: string, j: nat, c: char)
    requires j <= |s|
    ensures Count(s[..j], c) <= Count(s, c)
  {
    if j > 0 {
      CountOfPrefix(s[1..], j - 1, c);
      assert s[..j][1..] == s[1..][..j - 1];
    }
  }

  /** The byte cut, spelt out on the text of the first lines. With a newline among the bytes that
      fit, the text ends just before the last such newline and no code point is lost; without one
      it is the longest text that fits, so that only the code point at the cut is lost. */
  lemma ByteCut(s: string)
    requires |Encode(s)| > INDEX_MAX_BYTES && (s == "" || s[0] != '\n')
    ensures var head := Encode(s)[..INDEX_MAX_BYTES];
      var at := FindLastNewline(head);
      var kept := DecodeIgnoring(if at > 0 then head[..at] else head);
      && kept <= s && |kept| < |s| && |Encode(kept)| <= INDEX_MAX_BYTES
      && (10 in head ==> Encode(kept) == head[..at] && s[|kept|] == '\n')
      && (10 !in head ==> |Encode(kept)| + |EncodeChar(s[|kept|])| > INDEX_MAX_BYTES)
  {
    var encoded := Encode(s);
    var head := encoded[..INDEX_MAX_BYTES];
    var at := FindLastNewline(head);
    assert 10 in head <==> at >= 0;
    if at >= 0 {
      var j := NewlineCut(s, at);
      assert encoded[..at] == head[..at];
      DecodeAfterEncoded(s[..j], []);
      assert Encode(s[..j]) + [] == head[..at];
      assert j > 0;
      assert at > 0;
      assert DecodeIgnoring(head[..at]) == s[..j] + "" == s[..j];
    } else {
      var j, m := CutPoint(s, INDEX_MAX_BYTES);
      assert s[..|s|] == s;
      DecodeAfterEncoded(s[..j], EncodeChar(s[j])[..m]);
      BrokenCharIsDropped(s[j], m);
      assert DecodeIgnoring(head) == s[..j] + "" == s[..j];
    }
  }

  /** The kept text is a code-point prefix within both limits, and it is the whole text exactly
      when the text is not over the limit. */
  lemma KeptWithinLimits(trimmed: string)
    requires trimmed == "" || trimmed[0] != '\n'
    ensures var kept := Kept(trimmed);
      && kept <= trimmed
      && Count(kept, '\n') + 1 <= INDEX_MAX_LINES
      && |Encode(kept)| <= INDEX_MAX_BYTES
      && (kept == trimmed <==>
            Count(trimmed, '\n') + 1 <= INDEX_MAX_LINES && |Encode(trimmed)| <= INDEX_MAX_BYTES)
  {
    var lines := FirstLines(trimmed);
    FirstLinesIsLinePrefix(trimmed);
    PrefixIsNoLonger(lines, trimmed);
    KeptIsByteCut(trimmed);
    PrefixHasFewerLines(Kept(trimmed), lines);
    KeptWholeIff(trimmed);
  }

  lemma KeptWholeIff(trimmed: string)
    requires trimmed == "" || trimmed[0] != '\n'
    ensures Kept(trimmed) == trimmed <==>
            Count(trimmed, '\n') + 1 <= INDEX_MAX_LINES && |Encode(trimmed)| <= INDEX_MAX_BYTES
  {
    FirstLinesIsLinePrefix(trimmed);
    KeptIsByteCut(trimmed);
    if Count(trimmed, '\n') + 1 > INDEX_MAX_LINES {
      assert |Kept(trimmed)| <= |FirstLines(trimmed)| < |trimmed|;
    }
  }

  lemma KeptIsByteCut(trimmed: string)
    requires trimmed == "" || trimmed[0] != '\n'
    requires FirstLines(trimmed) <= trimmed
    ensures var lines, kept := FirstLines(trimmed), Kept(trimmed);
      && kept <= lines && |Encode(kept)| <= INDEX_MAX_BYTES
      && (kept == lines <==> |Encode(lines)| <= INDEX_MAX_BYTES)
  {
    if |Encode(FirstLines(trimmed))| > INDEX_MAX_BYTES {
      ByteCut(FirstLines(trimmed));
    }
  }

  lemma PrefixHasFewerLines(p: string, s: string)
    requires p <= s
    ensures Count(p, '\n') <= Count(s, '\n')
  {
    CountOfPrefix(s, |p|, '\n');
    assert p == s[..|p|];
  }

  /** A prefix that ends where a line ends. */
  predicate WholeLines(p: string, s: string) {
    p <= s && (p == s || s[|p|] == '\n')
  }

  /** The longest beginning of `s` that consists of whole lines and fits. */
  ghost predicate LongestThatFits(p: string, s: string) {
    && WholeLines(p, s) && |Encode(p)| <= INDEX_MAX_BYTES
    && forall q | WholeLines(q, s) && |Encode(q)| <= INDEX_MAX_BYTES :: |q| <= |p|
  }

  /** When the first lines are too large and a newline is among the bytes that fit, the kept text is the
      longest run of whole lines that fits if and only if the byte at the limit is no newline: that one
      would end a line that just fits, but the search for a cut point looks below it. */
  lemma KeptIsLongestIff(trimmed: string)
    requires trimmed == "" || trimmed[0] != '\n'
    ensures var lines := FirstLines(trimmed);
      |Encode(lines)| > INDEX_MAX_BYTES && 10 in Encode(lines)[..INDEX_MAX_BYTES] ==>
        (LongestThatFits(Kept(trimmed), lines) <==> Encode(lines)[INDEX_MAX_BYTES] != 10)
  {
    var lines := FirstLines(trimmed);
    FirstLinesIsLinePrefix(trimmed);
    if |Encode(lines)| > INDEX_MAX_BYTES && 10 in Encode(lines)[..INDEX_MAX_BYTES] {
      CutIsLongestIff(lines);
    }
  }

  lemma CutIsLongestIff(s: string)
    requires |Encode(s)| > INDEX_MAX_BYTES && (s == "" || s[0] != '\n')
    requires 10 in Encode(s)[..INDEX_MAX_BYTES]
    ensures var head := Encode(s)[..INDEX_MAX_BYTES];
      var at := FindLastNewline(head);
      LongestThatFits(DecodeIgnoring(if at > 0 then head[..at] else head), s) <==> Encode(s)[INDEX_MAX_BYTES] != 10
  {
    var head := Encode(s)[..INDEX_MAX_BYTES];
    var at := FindLastNewline(head);
    ByteCut(s);
    LastNewlineBelow(Encode(s), INDEX_MAX_BYTES);
    var kept := DecodeIgnoring(if at > 0 then head[..at] else head);
    assert |Encode(kept)| == at;
    CutAtIsLongestIff(s, at, kept);
  }

  lemma LastNewlineBelow(bs: seq<int>, n: nat)
    requires n <= |bs| && 10 in bs[..n]
    ensures var at := FindLastNewline(bs[..n]);
      0 <= at < n && bs[at] == 10 && forall i | at < i < n :: bs[i] != 10
  {
    var head := bs[..n];
    assert forall i | 0 <= i < n :: bs[i] == head[i];
  }

  lemma CutAtIsLongestIff(s: string, at: nat, kept: string)
    requires |Encode(s)| > INDEX_MAX_BYTES && at < INDEX_MAX_BYTES
    requires WholeLines(kept, s) && |Encode(kept)| == at
    requires forall i | at < i < INDEX_MAX_BYTES :: Encode(s)[i] != 10
    ensures LongestThatFits(kept, s) <==> Encode(s)[INDEX_MAX_BYTES] != 10
  {
    if Encode(s)[INDEX_MAX_BYTES] == 10 {
      var j := NewlineCut(s, INDEX_MAX_BYTES);
      assert WholeLines(s[..j], s) && |Encode(s[..j])| == INDEX_MAX_BYTES;
      LongerPrefixIsLarger(s[..j], kept, s);
    } else {
      forall q | WholeLines(q, s) && |Encode(q)| <= INDEX_MAX_BYTES ensures |q| <= |kept| {
        WholeLinesEndBefore(q, kept, s, at);
      }
    }
  }

  /** Whole lines that fit end at a newline below the limit, so not after the last one. */
  lemma WholeLinesEndBefore(q: string, kept: string, s: string, at: nat)
    requires |Encode(s)| > INDEX_MAX_BYTES && Encode(s)[INDEX_MAX_BYTES] != 10
    requires WholeLines(q, s) && |Encode(q)| <= INDEX_MAX_BYTES && kept <= s && |Encode(kept)| == at
    requires forall i | at < i < INDEX_MAX_BYTES :: Encode(s)[i] != 10
    ensures |q| <= |kept|
  {
    NewlineAfterPrefix(q, s);
    LongerPrefixIsLarger(q, kept, s);
  }

  lemma NewlineAfterPrefix(q: string, s: string)
    requires q <= s && q != s && s[|q|] == '\n'
    ensures |Encode(q)| < |Encode(s)| && Encode(s)[|Encode(q)|] == 10
  {
    assert s == q + s[|q|..];
    EncodeOfConcat(q, s[|q|..]);
    assert Encode(s[|q|..]) == EncodeChar('\n') + Encode(s[|q|..][1..]);
  }

  lemma LongerPrefixIsLarger(a: string, b: string, s: string)
    requires a <= s && b <= s
    ensures |a| > |b| ==> |Encode(a)| > |Encode(b)|
    ensures |a| <= |b| ==> |Encode(a)| <= |Encode(b)|
  {
    if |a| > |b| {
      assert a == b + a[|b|..];
      EncodeOfConcat(b, a[|b|..]);
      assert |EncodeChar(a[|b|..][0])| > 0;
    } else {
      assert b == a + b[|a|..];
      EncodeOfConcat(a, b[|a|..]);
    }
  }

  lemma {:induction false} AsciiIsItself(s: string)
    requires forall i | 0 <= i < |s| :: s[i] as int < 0x80
    ensures |Encode(s)| == |s| && forall i | 0 <= i < |s| :: Encode(s)[i] == s[i] as int
  {
    if s != "" {
      AsciiIsItself(s[1..]);
    }
  }

  lemma {:induction false} CountOfConcat(a: string, b: string, c: char)
    ensures Count(a + b, c) == Count(a, c) + Count(b, c)
  {
    if a == "" {
      assert a + b == b;
    } else {
      CountOfConcat(a[1..], b, c);
      assert (a + b)[1..] == a[1..] + b;
    }
  }

  lemma {:induction false} CountOfOthers(s: string, c: char)
    requires c !in s
    ensures Count(s, c) == 0
  {
    if s != "" {
      CountOfOthers(s[1..], c);
    }
  }

  lemma TwoNewlines(middle: string)
    requires '\n' !in middle
    ensures Count("a\n" + middle + "\na", '\n') == 2
  {
    CountOfConcat("a\n" + middle, "\na", '\n');
    CountOfConcat("a\n", middle, '\n');
    CountOfOthers(middle, '\n');
    assert "a\n"[1..] == "\n" && "\n"[1..] == "" && "\na"[1..] == "a" && "a"[1..] == "";
  }

  /** A text where the rule gives up a line that would have fitted: two lines of exactly 25000 bytes
      together, and a third one. */
  lemma LineThatFitsIsGivenUp() returns (s: string)
    ensures |s| == |Encode(s)| == INDEX_MAX_BYTES + 2 && FirstLines(s) == s
    ensures s[..INDEX_MAX_BYTES] <= s && WholeLines(s[..INDEX_MAX_BYTES], s)
    ensures |Encode(s[..INDEX_MAX_BYTES])| == INDEX_MAX_BYTES
    ensures !LongestThatFits(Kept(s), s) && |Kept(s)| < INDEX_MAX_BYTES
  {
    var middle := seq(INDEX_MAX_BYTES - 2, _ => 'a');
    s := "a\n" + middle + "\na";
    AsciiIsItself(s);
    AsciiIsItself(s[..INDEX_MAX_BYTES]);
    assert Encode(s)[..INDEX_MAX_BYTES][1] == 10;
    TwoNewlines(middle);
    FirstLinesIsLinePrefix(s);
    KeptIsLongestIff(s);
    KeptIsByteCut(s);
    LongerPrefixIsLarger(Kept(s), s[..INDEX_MAX_BYTES], s);
    ByteCut(s);
  }

  lemma PrefixIsNoLonger(p: string, s: string)
    requires p <= s
    ensures |Encode(p)| <= |Encode(s)|
  {
    EncodeOfConcat(p, s[|p|..]);
    assert p + s[|p|..] == s;
  }

  lemma {:induction false} TrimRightIsIdempotent(s: string)
    ensures TrimRight(TrimRight(s)) == TrimRight(s)
    ensures s != "" && !IsSpace(s[0]) ==> TrimRight(s) != "" && TrimRight(s)[0] == s[0]
  {
    if s != "" { TrimRightIsIdempotent(s[1..]); }
  }

  lemma StripIsIdempotent(s: string)
    ensures Strip(Strip(s)) == Strip(s)
    ensures Strip(s) != "" ==> !IsSpace(Strip(s)[0])
  {
    TrimRightIsIdempotent(TrimLeft(s));
  }

  /** What the listing reports is what loading does: the text is loaded whole exactly when the
      reported size is not over the limit; otherwise a strict prefix and the notice are. */
  lemma OverLimitMeansTruncated(text: string, notice: Stats -> string)
    ensures var trimmed := Strip(text);
      && (!IndexStats(text).OverLimit() ==> Truncate(text, notice) == trimmed)
      && (IndexStats(text).OverLimit() ==>
           && Truncate(text, notice) == Kept(trimmed) + "\n" + notice(IndexStats(text))
           && Kept(trimmed) <= trimmed && Kept(trimmed) != trimmed)
      && Count(Kept(trimmed), '\n') + 1 <= INDEX_MAX_LINES && |Encode(Kept(trimmed))| <= INDEX_MAX_BYTES
  {
    StripIsIdempotent(text);
    KeptWithinLimits(Strip(text));
    OverLimitIff(text);
  }

  /** Blank text counts as nothing and loads as nothing. */
  lemma BlankIndexIsEmpty(text: string, notice: Stats -> string)
    requires forall c <- text :: IsSpace(c)
    ensures IndexStats(text) == Stats(0, 0) && Truncate(text, notice) == ""
  {
    StripIsEmptyIff(text);
  }

  lemma OverLimitIff(text: string)
    ensures IndexStats(Strip(text)) == IndexStats(text)
    ensures !IndexStats(text).OverLimit() <==>
            Count(Strip(text), '\n') + 1 <= INDEX_MAX_LINES && |Encode(Strip(text))| <= INDEX_MAX_BYTES
  {
    StripIsIdempotent(text);
  }
}
