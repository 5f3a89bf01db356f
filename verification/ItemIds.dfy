/** The ids of items, read and written (lib/script/script_editor.py): what an id looks like, and what can
    be read off the ids that are given out. */
module ItemIds {
  import opened ScriptEditor

  predicate AllDigits(s: string) {
    s != "" && forall i | 0 <= i < |s| :: IsDigit(s[i])
  }

  /** E, the episode, S or U, the number, and possibly an underscore and a suffix number. */
  ghost predicate HasShape(id: string, episode: string, letter: char, number: string, tail: string) {
    && id == "E" + episode + [letter] + number + tail
    && AllDigits(episode) && AllDigits(number) && (letter == 'S' || letter == 'U')
    && (tail == "" || (tail[0] == '_' && AllDigits(tail[1..])))
  }

  /** The digits from `i` on end at `j`. */
  ghost predicate DigitRun(s: string, i: nat, j: nat) {
    i <= j <= |s| && (forall k | i <= k < j :: IsDigit(s[k])) && (j < |s| ==> !IsDigit(s[j]))
  }

  lemma {:induction false} DigitsEndAt(s: string, i: nat)
    requires i <= |s|
    ensures DigitRun(s, i, DigitsEnd(s, i))
    decreases |s| - i
  {
    if i < |s| && IsDigit(s[i]) { DigitsEndAt(s, i + 1); }
  }

  lemma RunEndsOnce(s: string, i: nat, j: nat)
    requires DigitRun(s, i, j)
    ensures DigitsEnd(s, i) == j
  {
    DigitsEndAt(s, i);
  }

  lemma SuffixIsTail(id: string, b: nat)
    requires b < |id| && id[b] == '_' && b + 1 < |id| && DigitsEnd(id, b + 1) == |id|
    ensures id[b..][0] == '_' && AllDigits(id[b..][1..])
  {
    DigitsEndAt(id, b + 1);
    assert id[b..][1..] == id[b + 1..];
  }

  lemma RunIsDigits(s: string, i: nat, j: nat)
    requires DigitRun(s, i, j) && i < j
    ensures AllDigits(s[i..j])
  {
  }

  lemma FiveParts(id: string, a: nat, b: nat)
    requires id != "" && id[0] == 'E' && 1 <= a && a + 1 <= b <= |id|
    ensures id == "E" + id[1..a] + [id[a]] + id[a + 1..b] + id[b..]
  {
  }

  /** What is parsed has the shape, and the numbers are read off it. */
  lemma ParsedIdHasShape(id: string) returns (episode: string, letter: char, number: string, tail: string)
    requires ParseId(id).Some?
    ensures HasShape(id, episode, letter, number, tail) && ParseId(id) == Some((Value(episode), Value(number)))
  {
    var a := DigitsEnd(id, 1);
    var b := DigitsEnd(id, a + 1);
    DigitsEndAt(id, 1);
    DigitsEndAt(id, a + 1);
    RunIsDigits(id, 1, a);
    RunIsDigits(id, a + 1, b);
    FiveParts(id, a, b);
    if b < |id| { SuffixIsTail(id, b); }
    episode, letter, number, tail := id[1..a], id[a], id[a + 1..b], id[b..];
  }

  lemma PartsOfShape(id: string, episode: string, letter: char, number: string, tail: string)
    requires HasShape(id, episode, letter, number, tail)
    ensures var a := 1 + |episode|; var b := a + 1 + |number|;
      && b <= |id| && id[0] == 'E' && id[1..a] == episode && id[a] == letter && id[a + 1..b] == number
      && id[b..] == tail
  {
  }

  lemma SliceIsRun(s: string, i: nat, j: nat)
    requires i <= j <= |s| && AllDigits(s[i..j]) && (j < |s| ==> !IsDigit(s[j]))
    ensures DigitsEnd(s, i) == j
  {
    forall k | i <= k < j ensures IsDigit(s[k]) { assert s[k] == s[i..j][k - i]; }
    RunEndsOnce(s, i, j);
  }

  /** Whatever has the shape is parsed. */
  lemma ShapeIsParsed(id: string, episode: string, letter: char, number: string, tail: string)
    requires HasShape(id, episode, letter, number, tail)
    ensures ParseId(id) == Some((Value(episode), Value(number)))
  {
    var a := 1 + |episode|;
    var b := a + 1 + |number|;
    PartsOfShape(id, episode, letter, number, tail);
    if tail != "" { assert id[b] == tail[0]; }
    SliceIsRun(id, 1, a);
    SliceIsRun(id, a + 1, b);
    if tail != "" {
      assert id[b + 1..|id|] == tail[1..];
      SliceIsRun(id, b + 1, |id|);
    }
  }

  /** The ids that are given out parse back to their episode and number, with or without a suffix. */
  lemma GivenIdsParse(episode: nat, letter: char, number: nat, k: nat)
    requires letter == 'S' || letter == 'U'
    ensures ParseId(NumberedId(episode, letter, number)) == Some((episode, number))
    ensures ParseId(SuffixedId(NumberedId(episode, letter, number), k)) == Some((episode, number))
  {
    var id, n := NumberedId(episode, letter, number), if letter == 'S' then Pad2(number) else Dec(number);
    ValueOfDec(episode);
    ValueOfDec(number);
    ValueOfPad2(number);
    ValueOfDec(k);
    assert AllDigits(Dec(episode)) && AllDigits(n) && AllDigits(Dec(k)) by {
      DecIsDigits(episode);
      DecIsDigits(number);
      DecIsDigits(k);
    }
    assert id == id + "";
    ShapeIsParsed(id, Dec(episode), letter, n, "");
    assert ("_" + Dec(k))[1..] == Dec(k);
    assert SuffixedId(id, k) == "E" + Dec(episode) + [letter] + n + ("_" + Dec(k));
    ShapeIsParsed(SuffixedId(id, k), Dec(episode), letter, n, "_" + Dec(k));
  }

  lemma DecIsDigits(n: nat)
    ensures AllDigits(Dec(n)) && AllDigits(Pad2(n))
  {
    ValueOfDec(n);
    forall i | 0 <= i < |Dec(n)| ensures IsDigit(Dec(n)[i]) { assert Dec(n)[i] in Dec(n); }
  }

  /** Segments and scenes are numbered with two digits at least, video units as they come. */
  lemma WrittenIds()
    ensures NumberedId(1, 'S', 5) == "E1S05" && NumberedId(2, 'S', 12) == "E2S12" && NumberedId(1, 'U', 5) == "E1U5"
  {
    assert Dec(12) == "12" by { assert Dec(1) == "1" && Dec(12) == Dec(1) + "2"; }
  }

  /** The episode of a script: the recorded one if it is positive, else that of the first id that parses,
      else 1. */
  lemma {:induction false} EpisodeOfIds(ids: seq<string>)
    ensures (forall i | 0 <= i < |ids| :: ParseId(ids[i]).None?) ==> FirstEpisode(ids) == 1
    ensures forall i | 0 <= i < |ids| && ParseId(ids[i]).Some? && (forall j | 0 <= j < i :: ParseId(ids[j]).None?) ::
      FirstEpisode(ids) == ParseId(ids[i]).value.0
    decreases |ids|
  {
    if ids != [] {
      EpisodeOfIds(ids[1..]);
      forall i | 0 <= i < |ids| && ParseId(ids[i]).Some? && forall j | 0 <= j < i :: ParseId(ids[j]).None?
        ensures FirstEpisode(ids) == ParseId(ids[i]).value.0
      {
        if i > 0 {
          assert ParseId(ids[0]).None? && ids[1..][i - 1] == ids[i];
          assert forall j | 0 <= j < i - 1 :: ids[1..][j] == ids[j + 1];
        }
      }
    }
  }

  lemma RecordedEpisodeCounts(script: Script, ids: seq<string>)
    ensures EpisodeOf(script, ids) ==
      match script.episode
      case Some(e) => if e > 0 then e else FirstEpisode(ids)
      case None => FirstEpisode(ids)
  {
  }

  /** The stem is the id up to its first underscore. */
  lemma {:induction false} StemIsBeforeUnderscore(id: string)
    ensures Stem(id) <= id && '_' !in Stem(id)
    ensures |Stem(id)| < |id| ==> id[|Stem(id)|] == '_'
  {
    if id != "" && id[0] != '_' { StemIsBeforeUnderscore(id[1..]); }
  }
}
