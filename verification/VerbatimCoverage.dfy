/** The verbatim coverage check of narration script plans (server/text_generation.py):
    whitespace folding, the greedy cursor scan, and the regular expression the scan replaces. */
module VerbatimCoverage {

  // ----- Whitespace folding -----

  /** The whitespace class shared by `\s`, `str.strip` and `str.isspace` on Python text. */
  predicate IsSpace(c: char) {
    var n := c as int;
    || 0x09 <= n <= 0x0D || 0x1C <= n <= 0x20 || n == 0x85 || n == 0xA0 || n == 0x1680
    || 0x2000 <= n <= 0x200A || n == 0x2028 || n == 0x2029 || n == 0x202F || n == 0x205F || n == 0x3000
  }

  function TrimLeft(s: string): (r: string)
    ensures |r| <= |s|
    ensures r != "" ==> !IsSpace(r[0])
  {
    if s != "" && IsSpace(s[0]) then TrimLeft(s[1..]) else s
  }

  function TrimRight(s: string): string {
    if s == "" then ""
    else
      var t := TrimRight(s[1..]);
      if t == "" && IsSpace(s[0]) then "" else [s[0]] + t
  }

  /** Without whitespace at either end. */
  function Strip(s: string): string {
    TrimRight(TrimLeft(s))
  }

  lemma {:induction false} TrimLeftIsEmptyIff(s: string)
    ensures TrimLeft(s) == "" <==> forall i | 0 <= i < |s| :: IsSpace(s[i])
  {
    if s != "" && IsSpace(s[0]) {
      TrimLeftIsEmptyIff(s[1..]);
      assert forall i | 1 <= i < |s| :: s[i] == s[1..][i - 1];
    }
  }

  lemma {:induction false} TrimRightKeepsFirst(s: string)
    requires s != "" && !IsSpace(s[0])
    ensures TrimRight(s) != ""
  {
  }

  /** Nothing is left exactly of text that is all whitespace. */
  lemma StripIsEmptyIff(s: string)
    ensures Strip(s) == "" <==> forall i | 0 <= i < |s| :: IsSpace(s[i])
  {
    TrimLeftIsEmptyIff(s);
    if TrimLeft(s) != "" { TrimRightKeepsFirst(TrimLeft(s)); }
  }

  /** Every maximal whitespace run becomes one space. */
  function Collapse(s: string): string
    decreases |s|
  {
    if s == "" then ""
    else if IsSpace(s[0]) then " " + Collapse(TrimLeft(s[1..]))
    else [s[0]] + Collapse(s[1..])
  }

  /** Folding of already NFC-normalised text. */
  function Normalize(s: string): string {
    TrimRight(TrimLeft(Collapse(s)))
  }

  // ----- The scan -----

  predicate StartsWithSpace(s: string) {
    s != "" && s[0] == ' '
  }

  /** What is left of the source once a space before a further part is skipped. */
  function Skipped(rest: string, first: bool): string {
    if !first && StartsWithSpace(rest) then rest[1..] else rest
  }

  /** The greedy scan as a recursion over what is left of the source. */
  predicate Scan(parts: seq<string>, rest: string, first: bool) {
    if parts == [] then rest == ""
    else
      var r := Skipped(rest, first);
      parts[0] <= r && Scan(parts[1..], r[|parts[0]|..], false)
  }

  /** Where the next part has to start: one space before any part but the first is skipped. */
  function NextStart(source: string, index: nat, cursor: nat): nat {
    if index != 0 && cursor < |source| && source[cursor] == ' ' then cursor + 1 else cursor
  }

  predicate StartsAt(part: string, source: string, cursor: nat) {
    cursor <= |source| && part <= source[cursor..]
  }

  /** The recursion by cursor positions. */
  predicate ScanFrom(parts: seq<string>, source: string, index: nat, cursor: nat)
    requires index <= |parts| && cursor <= |source|
    decreases |parts| - index
  {
    if index == |parts| then cursor == |source|
    else
      var start := NextStart(source, index, cursor);
      StartsAt(parts[index], source, start) && ScanFrom(parts, source, index + 1, start + |parts[index]|)
  }

  lemma TailOfTail<T>(s: seq<T>, i: nat, k: nat, tail: seq<T>)
    requires i + k <= |s| && tail == s[i..]
    ensures tail[k..] == s[i + k..]
  {
  }

  lemma SkippedIsNext(source: string, index: nat, cursor: nat, rest: string)
    requires cursor <= |source| && rest == source[cursor..]
    ensures Skipped(rest, index == 0) == source[NextStart(source, index, cursor)..]
  {
    if NextStart(source, index, cursor) != cursor { TailOfTail(source, cursor, 1, rest); }
  }

  lemma ScanTurn(left: seq<string>, rest: string, first: bool)
    requires left != []
    ensures var r := Skipped(rest, first);
      Scan(left, rest, first) == (left[0] <= r && Scan(left[1..], r[|left[0]|..], false))
  {
  }

  lemma ScanFromTurn(parts: seq<string>, source: string, index: nat, cursor: nat, r: string)
    requires index < |parts| && cursor <= |source| && r == source[NextStart(source, index, cursor)..]
    ensures ScanFrom(parts, source, index, cursor) ==
      (parts[index] <= r &&
       ScanFrom(parts, source, index + 1, NextStart(source, index, cursor) + |parts[index]|))
  {
  }

  /** Both recursions agree. */
  lemma {:induction false} ScanFromIsScan(
      parts: seq<string>, source: string, index: nat, cursor: nat, left: seq<string>, rest: string)
    requires index <= |parts| && cursor <= |source| && left == parts[index..] && rest == source[cursor..]
    ensures ScanFrom(parts, source, index, cursor) == Scan(left, rest, index == 0)
    decreases |parts| - index
  {
    if index < |parts| {
      var start, part := NextStart(source, index, cursor), parts[index];
      var r := Skipped(rest, index == 0);
      assert left[0] == part;
      SkippedIsNext(source, index, cursor, rest);
      ScanTurn(left, rest, index == 0);
      ScanFromTurn(parts, source, index, cursor, r);
      if part <= r {
        TailOfTail(parts, index, 1, left);
        TailOfTail(source, start, |part|, r);
        ScanFromIsScan(parts, source, index + 1, start + |part|, left[1..], r[|part|..]);
      }
    }
  }

  /** The cursor loop. */
  method ScanParts(parts: seq<string>, source: string) returns (ok: bool)
    ensures ok == ScanFrom(parts, source, 0, 0)
  {
    var cursor: nat := 0;
    for index := 0 to |parts|
      invariant cursor <= |source| && ScanFrom(parts, source, 0, 0) == ScanFrom(parts, source, index, cursor)
    {
      if index != 0 && cursor < |source| && source[cursor] == ' ' {
        cursor := cursor + 1;
      }
      if !StartsAt(parts[index], source, cursor) {
        return false;
      }
      cursor := cursor + |parts[index]|;
    }
    ok := cursor == |source|;
  }

  /** The coverage check: the cursor loop, and what it decides. */
  method CoversSourceVerbatim(parts: seq<string>, source: string) returns (ok: bool)
    ensures ok == Scan(parts, source, true)
    ensures ok ==> Matches(parts, source)
    ensures SpacesAreSafe(parts) ==> (ok <==> Matches(parts, source))
  {
    ok := ScanParts(parts, source);
    ScanFromIsScan(parts, source, 0, 0, parts, source);
    ScanIsRegex(parts, source);
  }

  // ----- The scan decides the regular expression -----

  function Spaced(sep: bool, s: string): string {
    if sep then " " + s else s
  }

  /** The parts written one after the other, with a space before part `i` when `seps[i]`. */
  function Join(parts: seq<string>, seps: seq<bool>): string
    requires |seps| == |parts|
  {
    if parts == [] then "" else Spaced(seps[0], parts[0] + Join(parts[1..], seps[1..]))
  }

  /** The source is matched by the escaped parts joined with an optional space. */
  ghost predicate Matches(parts: seq<string>, source: string) {
    exists seps: seq<bool> ::
      |seps| == |parts| && (parts != [] ==> !seps[0]) && Join(parts, seps) == source
  }

  predicate NoLeadingSpace(parts: seq<string>) {
    forall i | 0 <= i < |parts| :: !StartsWithSpace(parts[i])
  }

  /** No part but the first starts with a space. */
  predicate SpacesAreSafe(parts: seq<string>) {
    parts == [] || NoLeadingSpace(parts[1..])
  }

  lemma {:induction false} ScanGivesSeparators(parts: seq<string>, rest: string, first: bool) returns (seps: seq<bool>)
    requires Scan(parts, rest, first)
    ensures |seps| == |parts| && (first && parts != [] ==> !seps[0])
    ensures Join(parts, seps) == rest
  {
    if parts == [] {
      seps := [];
    } else {
      var skip := !first && StartsWithSpace(rest);
      var r := if skip then rest[1..] else rest;
      var tail := ScanGivesSeparators(parts[1..], r[|parts[0]|..], false);
      seps := [skip] + tail;
      JoinFirst(parts, skip, tail);
      assert parts[0] + r[|parts[0]|..] == r;
      assert Spaced(skip, r) == rest;
    }
  }

  lemma JoinFirst(parts: seq<string>, sep: bool, seps: seq<bool>)
    requires |parts| == 1 + |seps|
    ensures Join(parts, [sep] + seps) == Spaced(sep, parts[0] + Join(parts[1..], seps))
  {
    assert ([sep] + seps)[1..] == seps;
  }

  /** A space the source starts with may be given up: the joined rest still matches without it. */
  lemma {:induction false} DropLeadingSpace(parts: seq<string>, seps: seq<bool>) returns (fewer: seq<bool>)
    requires |seps| == |parts| && NoLeadingSpace(parts) && StartsWithSpace(Join(parts, seps))
    ensures |fewer| == |parts| && Join(parts, fewer) == Join(parts, seps)[1..]
  {
    if seps[0] {
      fewer := [false] + seps[1..];
      assert fewer[1..] == seps[1..];
    } else {
      BlankBeforeSpace(parts[0], Join(parts[1..], seps[1..]));
      var tail := DropLeadingSpace(parts[1..], seps[1..]);
      fewer := [false] + tail;
      assert fewer[1..] == tail;
    }
  }

  lemma BlankBeforeSpace(part: string, tail: string)
    requires !StartsWithSpace(part) && StartsWithSpace(part + tail)
    ensures part == "" && part + tail == tail
  {
  }

  lemma {:induction false} SeparatorsMakeScanSucceed(parts: seq<string>, seps: seq<bool>, first: bool)
    requires |seps| == |parts| && (first && parts != [] ==> !seps[0])
    requires if first then SpacesAreSafe(parts) else NoLeadingSpace(parts)
    ensures Scan(parts, Join(parts, seps), first)
  {
    if parts != [] {
      var source := Join(parts, seps);
      var tail := seps[1..];
      if !first && StartsWithSpace(source) && !seps[0] {
        BlankBeforeSpace(parts[0], Join(parts[1..], tail));
        tail := DropLeadingSpace(parts[1..], tail);
      }
      var r := if !first && StartsWithSpace(source) then source[1..] else source;
      assert r == parts[0] + Join(parts[1..], tail);
      assert r[|parts[0]|..] == Join(parts[1..], tail);
      SeparatorsMakeScanSucceed(parts[1..], tail, false);
    }
  }

  /** Every acceptance is a match of the regular expression; the converse holds as long as no part
      after the first starts with a space, which folding guarantees. */
  lemma ScanIsRegex(parts: seq<string>, source: string)
    ensures Scan(parts, source, true) ==> Matches(parts, source)
    ensures SpacesAreSafe(parts) ==> (Scan(parts, source, true) <==> Matches(parts, source))
  {
    if Scan(parts, source, true) {
      var seps := ScanGivesSeparators(parts, source, true);
    }
    if SpacesAreSafe(parts) && Matches(parts, source) {
      var seps: seq<bool> :| |seps| == |parts| && (parts != [] ==> !seps[0]) && Join(parts, seps) == source;
      SeparatorsMakeScanSucceed(parts, seps, true);
    }
  }

  /** The condition is exact: if a later part starts with a space, the scan rejects the plain
      concatenation of the parts, which the regular expression accepts. */
  lemma ScanIsRegexExactlyWhenSpacesAreSafe(parts: seq<string>)
    ensures (forall source :: Scan(parts, source, true) <==> Matches(parts, source)) <==> SpacesAreSafe(parts)
  {
    if SpacesAreSafe(parts) {
      forall source ensures Scan(parts, source, true) <==> Matches(parts, source) {
        ScanIsRegex(parts, source);
      }
    } else {
      ConcatMatches(parts);
      assert Concat(parts)[|parts[0]|..] == Concat(parts[1..]);
      if Scan(parts, Concat(parts), true) {
        ScanOfConcat(parts[1..]);
      }
    }
  }

  lemma ConcatMatches(parts: seq<string>)
    ensures Matches(parts, Concat(parts))
  {
    var none := NoSeparators(parts);
  }

  lemma {:induction false} NoSeparators(parts: seq<string>) returns (seps: seq<bool>)
    ensures |seps| == |parts| && (parts != [] ==> !seps[0]) && Join(parts, seps) == Concat(parts)
  {
    if parts == [] {
      seps := [];
    } else {
      var rest := NoSeparators(parts[1..]);
      seps := [false] + rest;
      assert seps[1..] == rest;
    }
  }

  /** A scan takes at least as many characters as its parts have. */
  lemma {:induction false} ScanNeedsLength(parts: seq<string>, rest: string, first: bool)
    requires Scan(parts, rest, first)
    ensures |Concat(parts)| <= |rest|
  {
    if parts != [] {
      var r := if !first && StartsWithSpace(rest) then rest[1..] else rest;
      ScanNeedsLength(parts[1..], r[|parts[0]|..], false);
    }
  }

  /** Later parts are found in their plain concatenation only if none starts with a space: skipping one
      would leave too little. */
  lemma {:induction false} ScanOfConcat(parts: seq<string>)
    requires Scan(parts, Concat(parts), false)
    ensures NoLeadingSpace(parts)
  {
    if parts != [] {
      FirstIsNotSkipped(parts);
      ScanOfConcat(parts[1..]);
      assert forall i | 0 < i < |parts| :: parts[i] == parts[1..][i - 1];
    }
  }

  lemma FirstIsNotSkipped(parts: seq<string>)
    requires parts != [] && Scan(parts, Concat(parts), false)
    ensures !StartsWithSpace(parts[0]) && Scan(parts[1..], Concat(parts[1..]), false)
  {
    var rest := Concat(parts);
    if StartsWithSpace(rest) {
      ScanNeedsLength(parts[1..], rest[1..][|parts[0]|..], false);
      assert false;
    }
    assert rest[|parts[0]|..] == Concat(parts[1..]);
    assert parts[0] != "" ==> rest[0] == parts[0][0];
  }

  /** Without the no-leading-space condition the scan rejects what the regular expression accepts. */
  lemma LeadingSpaceDefeatsScan()
    ensures !Scan(["a", " b"], "a b", true) && Matches(["a", " b"], "a b")
  {
    var seps := [false, false];
    assert Join([" b"], [false]) == " b" by { assert Join([], []) == "" && " b" + "" == " b"; }
    assert ["a", " b"][1..] == [" b"] && seps[1..] == [false];
    assert Join(["a", " b"], seps) == "a" + " b" == "a b";
  }

  function Concat(parts: seq<string>): string {
    if parts == [] then "" else parts[0] + Concat(parts[1..])
  }

  function WithoutSpaces(s: string): string {
    if s == "" then "" else (if s[0] == ' ' then "" else [s[0]]) + WithoutSpaces(s[1..])
  }

  lemma {:induction false} WithoutSpacesOfConcat(a: string, b: string)
    ensures WithoutSpaces(a + b) == WithoutSpaces(a) + WithoutSpaces(b)
  {
    if a == "" {
      assert a + b == b;
    } else {
      WithoutSpacesOfConcat(a[1..], b);
      assert (a + b)[1..] == a[1..] + b;
      Associative(if a[0] == ' ' then "" else [a[0]], WithoutSpaces(a[1..]), WithoutSpaces(b));
    }
  }

  lemma Associative(a: string, b: string, c: string)
    ensures a + (b + c) == (a + b) + c
  {
  }

  /** Acceptance means that nothing but spaces was added, dropped or moved. */
  lemma {:induction false} AcceptedTextAgrees(parts: seq<string>, source: string, first: bool)
    requires Scan(parts, source, first)
    ensures WithoutSpaces(Concat(parts)) == WithoutSpaces(source)
  {
    if parts != [] {
      var r := if !first && StartsWithSpace(source) then source[1..] else source;
      AcceptedTextAgrees(parts[1..], r[|parts[0]|..], false);
      WithoutSpacesOfConcat(parts[0], r[|parts[0]|..]);
      WithoutSpacesOfConcat(parts[0], Concat(parts[1..]));
      assert r == parts[0] + r[|parts[0]|..];
    }
  }

  // ----- Every cut of a text is accepted -----

  /** What folding appends for `s` when some text was already written (`started`) and a blank run
      is waiting to become a space (`pending`): the one-pass form of folding. */
  function Tail(started: bool, pending: bool, s: string): string
    decreases |s|
  {
    if s == "" then ""
    else if IsSpace(s[0]) then Tail(started, started, s[1..])
    else Spaced(pending, [s[0]] + Tail(true, false, s[1..]))
  }

  predicate Blank(s: string) {
    forall i | 0 <= i < |s| :: IsSpace(s[i])
  }

  function PendingAfter(started: bool, pending: bool, s: string): bool
    decreases |s|
  {
    if s == "" then pending
    else if IsSpace(s[0]) then PendingAfter(started, started, s[1..])
    else PendingAfter(true, false, s[1..])
  }

  lemma {:induction false} TailOfConcat(started: bool, pending: bool, a: string, b: string)
    ensures Tail(started, pending, a + b)
         == Tail(started, pending, a) + Tail(started || !Blank(a), PendingAfter(started, pending, a), b)
    decreases |a|
  {
    if a == "" {
      assert a + b == b;
    } else {
      assert (a + b)[1..] == a[1..] + b;
      assert Blank(a) == (IsSpace(a[0]) && Blank(a[1..])) by { BlankCons(a); }
      if IsSpace(a[0]) {
        TailOfConcat(started, started, a[1..], b);
      } else {
        TailOfConcat(true, false, a[1..], b);
      }
    }
  }

  lemma BlankCons(s: string)
    requires s != ""
    ensures Blank(s) == (IsSpace(s[0]) && Blank(s[1..]))
  {
    assert s == [s[0]] + s[1..];
    if IsSpace(s[0]) && Blank(s[1..]) {
      forall i | 0 <= i < |s| ensures IsSpace(s[i]) {
        if i > 0 { assert s[i] == s[1..][i - 1]; }
      }
    }
    if Blank(s) {
      forall i | 0 <= i < |s[1..]| ensures IsSpace(s[1..][i]) { assert s[1..][i] == s[i + 1]; }
    }
  }

  /** The one-pass form against the fold: the same text, possibly after one separating space. */
  lemma {:induction false} TailIsSpacedNormalize(started: bool, pending: bool, s: string)
    requires pending ==> started
    ensures Blank(s) ==> Tail(started, pending, s) == "" == Tail(false, false, s)
    ensures !Blank(s) ==> Tail(false, false, s) != "" && !StartsWithSpace(Tail(false, false, s))
    ensures !Blank(s) ==>
      exists sep :: (sep ==> started) && Tail(started, pending, s) == Spaced(sep, Tail(false, false, s))
    decreases |s|
  {
    if s != "" {
      BlankCons(s);
      if IsSpace(s[0]) {
        TailIsSpacedNormalize(started, started, s[1..]);
      } else {
        assert Tail(started, pending, s) == Spaced(pending, Tail(false, false, s));
      }
    }
  }

  /** Folding of the definition equals folding in one pass. */
  lemma {:induction false} CollapsedTail(s: string)
    ensures Tail(true, false, s) == TrimRight(Collapse(s))
    ensures var d := TrimLeft(s);
      Tail(true, true, s) == (if d == "" then "" else " " + TrimRight(Collapse(d)))
    decreases |s|
  {
    if s != "" {
      CollapsedTail(s[1..]);
      if IsSpace(s[0]) {
        var d := TrimLeft(s[1..]);
        if d != "" { TrimRightKeepsHead(d); }
        assert Collapse(s) == " " + Collapse(d);
        assert (" " + Collapse(d))[1..] == Collapse(d);
      } else {
        TrimRightKeepsHead(s);
      }
    }
  }

  lemma TrimRightKeepsHead(d: string)
    requires d != "" && !IsSpace(d[0])
    ensures TrimRight(Collapse(d)) == [d[0]] + TrimRight(Collapse(d[1..]))
  {
    assert Collapse(d)[1..] == Collapse(d[1..]);
  }

  lemma {:induction false} NormalizeIsOnePass(s: string)
    ensures Normalize(s) == Tail(false, false, s)
    decreases |s|
  {
    if s != "" {
      if IsSpace(s[0]) {
        var d := TrimLeft(s[1..]);
        assert (" " + Collapse(d))[1..] == Collapse(d);
        NormalizeIsOnePass(s[1..]);
        TrimmedCollapse(s[1..]);
        assert TrimLeft(Collapse(s)) == TrimLeft(Collapse(d));
        assert d == "" || TrimLeft(Collapse(d)) == Collapse(d);
      } else {
        CollapsedTail(s[1..]);
        TrimRightKeepsHead(s);
        assert TrimLeft(Collapse(s)) == Collapse(s);
      }
    }
  }

  lemma TrimmedCollapse(s: string)
    ensures TrimLeft(Collapse(s)) == Collapse(TrimLeft(s))
  {
    if s != "" && IsSpace(s[0]) {
      var d := TrimLeft(s[1..]);
      assert (" " + Collapse(d))[1..] == Collapse(d);
      assert d != "" ==> !IsSpace(Collapse(d)[0]);
    }
  }

  function NormalizeAll(slices: seq<string>): seq<string> {
    if slices == [] then [] else [Normalize(slices[0])] + NormalizeAll(slices[1..])
  }

  /** Scanning one folded slice: its text is what folding appends, after at most one space. */
  lemma SliceIsScanned(part: string, others: seq<string>, t: string, t': string, rest: string, first: bool, sep: bool)
    requires part != "" && !StartsWithSpace(part) && (sep ==> !first)
    requires t == Spaced(sep, part + t')
    requires rest == t || (StartsWithSpace(t) && !first && rest == t[1..])
    requires Scan(others, t', false)
    ensures Scan([part] + others, rest, first)
  {
    var parts := [part] + others;
    assert parts[0] == part && parts[1..] == others;
    var r := if !first && StartsWithSpace(rest) then rest[1..] else rest;
    assert (part + t')[0] == part[0];
    assert r == part + t';
    assert r[|part|..] == t';
  }

  /** The scan of the remaining slices accepts what folding appends for them, whether or not the
      separating space in front was already skipped. */
  lemma {:induction false} RestIsScanned(slices: seq<string>, started: bool, pending: bool, rest: string, first: bool)
    requires (pending ==> started) && (first ==> !started)
    requires var t := Tail(started, pending, Concat(slices));
      rest == t || (StartsWithSpace(t) && !first && rest == t[1..])
    ensures Scan(NormalizeAll(slices), rest, first)
    decreases |slices|, 0
  {
    if slices != [] {
      var a, others := slices[0], slices[1..];
      var t := Tail(started, pending, Concat(slices));
      TailOfConcat(started, pending, a, Concat(others));
      NormalizeIsOnePass(a);
      TailIsSpacedNormalize(started, pending, a);
      PendingMeansStarted(started, pending, a);
      var p := PendingAfter(started, pending, a);
      if Blank(a) {
        BlankSliceIsScanned(others, started, p, rest, first);
      } else {
        var t' := Tail(true, p, Concat(others));
        var sep :| (sep ==> started) && Tail(started, pending, a) == Spaced(sep, Normalize(a));
        assert t == Spaced(sep, Normalize(a) + t');
        RestIsScanned(others, true, p, t', false);
        SliceIsScanned(Normalize(a), NormalizeAll(others), t, t', rest, first, sep);
      }
    }
  }

  /** Folded text never continues with two spaces, so skipping one leaves a rest of the same shape. */
  lemma {:induction false} BlankSliceIsScanned(
      others: seq<string>, started: bool, pending: bool, rest: string, first: bool)
    requires (pending ==> started) && (first ==> !started)
    requires var t := Tail(started, pending, Concat(others));
      rest == t || (StartsWithSpace(t) && !first && rest == t[1..])
    ensures Scan([""] + NormalizeAll(others), rest, first)
    decreases |others|, 1
  {
    TailIsSpacedNormalize(started, pending, Concat(others));
    var parts := [""] + NormalizeAll(others);
    assert parts[0] == "" && parts[1..] == NormalizeAll(others);
    var r := if !first && StartsWithSpace(rest) then rest[1..] else rest;
    assert r[0..] == r;
    RestIsScanned(others, started, pending, r, false);
  }

  lemma {:induction false} PendingMeansStarted(started: bool, pending: bool, s: string)
    requires pending ==> started
    ensures PendingAfter(started, pending, s) ==> started || !Blank(s)
    decreases |s|
  {
    if s != "" {
      BlankCons(s);
      if IsSpace(s[0]) { PendingMeansStarted(started, started, s[1..]); }
    }
  }

  /** Cutting a text anywhere and folding each slice always passes the check against the folded text. */
  lemma EveryCutIsCovered(slices: seq<string>)
    ensures Scan(NormalizeAll(slices), Normalize(Concat(slices)), true)
  {
    NormalizeIsOnePass(Concat(slices));
    RestIsScanned(slices, false, false, Normalize(Concat(slices)), true);
  }
}
