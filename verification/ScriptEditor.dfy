/** Editing one episode script by item id (lib/script/script_editor.py). A script is its item list;
    items are JSON objects. */
module ScriptEditor {

  datatype Option<+T> = None | Some(value: T)

  datatype Json =
    | Null | Bool(b: bool) | Num(n: int) | Str(s: string) | Arr(elems: seq<Json>) | Obj(fields: map<string, Json>)

  type Item = map<string, Json>

  /** The item list with the id field and id letter of its kind and the episode number, if recorded. */
  datatype Script = Script(items: seq<Item>, idField: string, letter: char, episode: Option<nat>)

  /** One component of an error location. */
  datatype Step = Key(key: string) | Index(index: int)

  datatype Edit<+T> = Done(value: T) | Rejected(location: seq<Step>, unit: Option<string>)

  const ID_FIELDS := {"segment_id", "scene_id", "unit_id", "shot_id"}
  const ASSETS := "generated_assets"
  const END_FRAME := "end_frame_image"
  const PENDING := "pending_authoring"
  const REPLAN := "needs_replan"

  // ----- Items and ids -----

  function IdOf(idField: string, item: Item): string {
    if HasId(idField, item) then item[idField].s else "None"
  }

  function Ids(idField: string, items: seq<Item>): (r: seq<string>)
    ensures |r| == |items| && forall i | 0 <= i < |items| :: r[i] == IdOf(idField, items[i])
  {
    seq(|items|, i requires 0 <= i < |items| => IdOf(idField, items[i]))
  }

  ghost predicate Unique(ids: seq<string>) {
    forall i, j | 0 <= i < j < |ids| :: ids[i] != ids[j]
  }

  predicate HasId(idField: string, item: Item) {
    idField in item && item[idField].Str?
  }

  /** Items carry string ids, and no id occurs twice. */
  ghost predicate WellFormed(script: Script) {
    && script.idField in ID_FIELDS
    && (forall i | 0 <= i < |script.items| :: HasId(script.idField, script.items[i]))
    && Unique(Ids(script.idField, script.items))
  }

  function Taken(ids: seq<string>): (r: set<string>)
    ensures forall id :: id in r <==> id in ids
  {
    set id | id in ids
  }

  /** Position of the first item with the id, the length when there is none. */
  function Find(ids: seq<string>, id: string): (i: nat)
    ensures i <= |ids| && (i < |ids| ==> ids[i] == id)
    ensures forall j | 0 <= j < i :: ids[j] != id
  {
    if ids == [] || ids[0] == id then 0 else 1 + Find(ids[1..], id)
  }

  /** Insertion position after the anchor, None when the anchor is missing. */
  function AnchorAt(ids: seq<string>, afterId: Option<string>): (r: Option<nat>)
    ensures r.Some? ==> r.value <= |ids|
  {
    match afterId
    case None => Some(0)
    case Some(id) => var i := Find(ids, id); if i < |ids| then Some(i + 1) else None
  }

  function InsertAt<T>(s: seq<T>, at: nat, x: T): seq<T>
    requires at <= |s|
  {
    s[..at] + [x] + s[at..]
  }

  function RemoveAt<T>(s: seq<T>, at: nat): seq<T>
    requires at < |s|
  {
    s[..at] + s[at + 1..]
  }

  // ----- Fresh ids -----

  function Digit(n: nat): char
    requires n < 10
  {
    "0123456789"[n]
  }

  function Dec(n: nat): string {
    if n < 10 then [Digit(n)] else Dec(n / 10) + [Digit(n % 10)]
  }

  predicate IsDigit(c: char) {
    '0' <= c <= '9'
  }

  function Value(s: string): nat {
    if s == "" then 0
    else Value(s[..|s| - 1]) * 10 + (if IsDigit(s[|s| - 1]) then s[|s| - 1] as int - '0' as int else 0)
  }

  lemma {:induction false} ValueOfDec(n: nat)
    ensures Value(Dec(n)) == n && Dec(n) != "" && forall c <- Dec(n) :: IsDigit(c)
  {
    if n < 10 {
      assert Value("") == 0;
      ValueOfLast("", n);
      assert Dec(n) == "" + [Digit(n)];
    } else {
      ValueOfDec(n / 10);
      ValueOfLast(Dec(n / 10), n % 10);
    }
  }

  lemma ValueOfLast(s: string, d: nat)
    requires d < 10
    ensures IsDigit(Digit(d)) && Value(s + [Digit(d)]) == Value(s) * 10 + d
  {
    assert (s + [Digit(d)])[..|s|] == s;
  }

  /** At least two digits. */
  function Pad2(n: nat): string {
    if n < 10 then "0" + Dec(n) else Dec(n)
  }

  lemma ValueOfPad2(n: nat)
    ensures Value(Pad2(n)) == n
  {
    ValueOfDec(n);
    if n < 10 {
      assert Pad2(n)[..1] == "0" && Dec(0) == "0";
      ValueOfDec(0);
    }
  }

  /** The id an item of the kind gets for a number. */
  function NumberedId(episode: nat, letter: char, number: nat): string {
    "E" + Dec(episode) + [letter] + (if letter == 'S' then Pad2(number) else Dec(number))
  }

  function SuffixedId(stem: string, k: nat): string {
    stem + "_" + Dec(k)
  }

  ghost predicate Injective(gen: nat -> string) {
    forall i: nat, j: nat | gen(i) == gen(j) :: i == j
  }

  /** Taken names that none of the first `n` generated names is. */
  ghost function Ungenerated(gen: nat -> string, n: nat, taken: set<string>): set<string> {
    set t | t in taken && forall i: nat | i < n :: gen(i) != t
  }

  /** `r` is the least number from `n` on whose name is not taken. */
  ghost predicate LeastFree(gen: nat -> string, n: nat, r: nat, taken: set<string>) {
    r >= n && gen(r) !in taken && forall i: nat | n <= i < r :: gen(i) in taken
  }

  /** The first name from `n` on that is not taken. */
  function FirstFree(gen: nat -> string, n: nat, taken: set<string>): (r: nat)
    requires Injective(gen)
    ensures r >= n && gen(r) !in taken
    ensures forall i: nat | n <= i < r :: gen(i) in taken
    decreases Ungenerated(gen, n, taken)
  {
    if gen(n) in taken then
      assert gen(n) in Ungenerated(gen, n, taken) && gen(n) !in Ungenerated(gen, n + 1, taken);
      FirstFree(gen, n + 1, taken)
    else n
  }

  function NumberedIds(episode: nat, letter: char): nat -> string {
    (n: nat) => NumberedId(episode, letter, n)
  }

  function SuffixedIds(stem: string): nat -> string {
    (k: nat) => SuffixedId(stem, k)
  }

  lemma NumberedIdsDiffer(episode: nat, letter: char)
    ensures Injective(NumberedIds(episode, letter))
  {
    var gen := NumberedIds(episode, letter);
    forall i: nat, j: nat | gen(i) == gen(j) ensures i == j {
      var p := "E" + Dec(episode) + [letter];
      assert gen(i)[|p|..] == gen(j)[|p|..];
      ValueOfDec(i);
      ValueOfDec(j);
      ValueOfPad2(i);
      ValueOfPad2(j);
    }
  }

  lemma SuffixedIdsDiffer(stem: string)
    ensures Injective(SuffixedIds(stem))
  {
    var gen := SuffixedIds(stem);
    forall i: nat, j: nat | gen(i) == gen(j) ensures i == j {
      assert gen(i)[|stem + "_"|..] == gen(j)[|stem + "_"|..];
      ValueOfDec(i);
      ValueOfDec(j);
    }
  }

  function DigitsEnd(s: string, i: nat): (j: nat)
    requires i <= |s|
    ensures i <= j <= |s|
    decreases |s| - i
  {
    if i < |s| && IsDigit(s[i]) then DigitsEnd(s, i + 1) else i
  }

  /** Episode and number of an id of the shape E<digits>(S|U)<digits>, optionally _<digits>. */
  function ParseId(id: string): Option<(nat, nat)> {
    if id == "" || id[0] != 'E' then None
    else
      var a := DigitsEnd(id, 1);
      if a == 1 || a == |id| || !(id[a] == 'S' || id[a] == 'U') then None
      else
        var b := DigitsEnd(id, a + 1);
        if b == a + 1 then None
        else if b == |id| || (id[b] == '_' && b + 1 < |id| && DigitsEnd(id, b + 1) == |id|) then
          Some((Value(id[1..a]), Value(id[a + 1..b])))
        else None
  }

  /** The recorded episode, else that of the first parsable id, else 1. */
  function EpisodeOf(script: Script, ids: seq<string>): nat {
    if script.episode.Some? && script.episode.value >= 1 then script.episode.value else FirstEpisode(ids)
  }

  function FirstEpisode(ids: seq<string>): nat {
    if ids == [] then 1
    else if ParseId(ids[0]).Some? then ParseId(ids[0]).value.0
    else FirstEpisode(ids[1..])
  }

  /** Largest number among the ids of the episode, 0 when there is none. */
  function MaxNumber(ids: seq<string>, episode: nat): (m: nat)
    ensures forall id <- ids :: ParseId(id).Some? && ParseId(id).value.0 == episode ==> ParseId(id).value.1 <= m
  {
    if ids == [] then 0
    else
      var m := MaxNumber(ids[1..], episode);
      var p := ParseId(ids[0]);
      if p.Some? && p.value.0 == episode && p.value.1 > m then p.value.1 else m
  }

  /** The id a new item gets: a number above every number of the episode, and not taken. */
  function NewItemId(script: Script): (id: string)
    ensures id !in Ids(script.idField, script.items) && id != ""
    ensures var ids := Ids(script.idField, script.items); var episode := EpisodeOf(script, ids);
      exists n :: n > MaxNumber(ids, episode) && id == NumberedId(episode, script.letter, n)
  {
    var ids := Ids(script.idField, script.items);
    var episode := EpisodeOf(script, ids);
    NumberedIdsDiffer(episode, script.letter);
    var n := FirstFree(NumberedIds(episode, script.letter), MaxNumber(ids, episode) + 1, Taken(ids));
    assert NumberedIds(episode, script.letter)(n) == NumberedId(episode, script.letter, n);
    NumberedId(episode, script.letter, n)
  }

  /** The part of an id before its first underscore. */
  function Stem(id: string): string {
    if id == "" || id[0] == '_' then "" else [id[0]] + Stem(id[1..])
  }

  function NextSuffixedId(base: string, taken: set<string>): (id: string)
    ensures id !in taken && id != ""
  {
    SuffixedIdsDiffer(Stem(base));
    SuffixedId(Stem(base), FirstFree(SuffixedIds(Stem(base)), 1, taken))
  }

  /** A new item's number is the least one above the largest of its episode whose id is not taken; that
      largest number is 0 or the number of an id of the episode. */
  lemma NewItemNumberIsLeast(script: Script) returns (n: nat)
    ensures var ids := Ids(script.idField, script.items); var episode := EpisodeOf(script, ids);
      && NewItemId(script) == NumberedId(episode, script.letter, n)
      && LeastFree(NumberedIds(episode, script.letter), MaxNumber(ids, episode) + 1, n, Taken(ids))
      && (MaxNumber(ids, episode) > 0 ==> exists id <- ids :: ParseId(id) == Some((episode, MaxNumber(ids, episode))))
  {
    var ids := Ids(script.idField, script.items);
    var episode := EpisodeOf(script, ids);
    NumberedIdsDiffer(episode, script.letter);
    n := FirstFree(NumberedIds(episode, script.letter), MaxNumber(ids, episode) + 1, Taken(ids));
    MaxNumberIsReached(ids, episode);
  }

  lemma {:induction false} MaxNumberIsReached(ids: seq<string>, episode: nat)
    ensures MaxNumber(ids, episode) > 0 ==> exists id <- ids :: ParseId(id) == Some((episode, MaxNumber(ids, episode)))
  {
    if ids != [] {
      MaxNumberIsReached(ids[1..], episode);
      assert ids[0] in ids && forall id <- ids[1..] :: id in ids;
    }
  }

  /** A further part of a split gets the stem of its id with the least suffix from 1 on that is free. */
  lemma SuffixIsLeast(base: string, taken: set<string>) returns (k: nat)
    ensures NextSuffixedId(base, taken) == Stem(base) + "_" + Dec(k)
    ensures LeastFree(SuffixedIds(Stem(base)), 1, k, taken)
  {
    SuffixedIdsDiffer(Stem(base));
    k := FirstFree(SuffixedIds(Stem(base)), 1, taken);
  }

  // ----- Editing -----

  /** Setting a nested field; None when a parent is missing or no object. */
  function SetPath(obj: Item, parts: seq<string>, value: Json): Option<Item>
    requires parts != []
    decreases |parts|
  {
    if |parts| == 1 then Some(obj[parts[0] := value])
    else if parts[0] !in obj || !obj[parts[0]].Obj? then None
    else
      match SetPath(obj[parts[0]].fields, parts[1..], value)
      case None => None
      case Some(inner) => Some(obj[parts[0] := Obj(inner)])
  }

  /** Fields an update may not touch: derived markers, media and ids. */
  predicate Settable(parts: seq<string>, value: Json) {
    && parts != [] && (forall p <- parts :: p != "")
    && parts[0] !in {ASSETS, REPLAN, PENDING, END_FRAME} + ID_FIELDS
    && !(value.Null? && (parts == ["image_prompt"] || parts == ["video_prompt"]))
  }

  function SetNested(item: Item, parts: seq<string>, value: Json): Option<Item> {
    if Settable(parts, value) then SetPath(item, parts, value) else None
  }

  datatype Field = Field(parts: seq<string>, value: Json)

  function FieldLocation(parts: seq<string>): seq<Step> {
    [Key("fields")] + seq(|parts|, i requires 0 <= i < |parts| => Key(parts[i]))
  }

  /** The fields set one after the other; an error names the first one that cannot be set. */
  function SetFields(item: Item, fields: seq<Field>, unit: string): Edit<Item>
    decreases |fields|
  {
    if fields == [] then Done(item)
    else
      match SetNested(item, fields[0].parts, fields[0].value)
      case None => Rejected(FieldLocation(fields[0].parts), Some(unit))
      case Some(next) => SetFields(next, fields[1..], unit)
  }

  function Without(item: Item, key: string): Item {
    item - {key}
  }

  predicate NoMedia(item: Item) {
    ASSETS in item && item[ASSETS] == Obj(map[]) && END_FRAME !in item
  }

  /** A new item as it enters the script: its own id, no media. */
  function FreshItem(idField: string, item: Item, id: string): (r: Item)
    ensures idField != ASSETS ==> NoMedia(r)
  {
    Without(item[idField := Str(id)][ASSETS := Obj(map[])], END_FRAME)
  }

  function AssetsOf(item: Item): Json {
    if ASSETS in item && item[ASSETS].Obj? then item[ASSETS] else Obj(map[])
  }

  /** The end frame of `from`, put on `item`; null counts as absent. */
  function WithEndFrame(item: Item, from: Item): Item {
    if END_FRAME in from && !from[END_FRAME].Null? then item[END_FRAME := from[END_FRAME]] else Without(item, END_FRAME)
  }

  /** The first part of a split: it continues the anchor with its id and its media. */
  function AnchorPart(idField: string, part: Item, anchor: Item, id: string): Item {
    WithEndFrame(part[idField := Str(id)][ASSETS := AssetsOf(anchor)], anchor)
  }

  /** The further parts of a split, each with a new suffixed id. */
  function FurtherParts(idField: string, base: string, parts: seq<Item>, taken: set<string>): (r: seq<Item>)
    ensures |r| == |parts| && (idField in ID_FIELDS ==> forall i | 0 <= i < |r| :: NoMedia(r[i]))
  {
    if parts == [] then []
    else
      var id := NextSuffixedId(base, taken);
      [FreshItem(idField, parts[0], id)] + FurtherParts(idField, base, parts[1..], taken + {id})
  }

  function SplitParts(script: Script, at: nat, parts: seq<Item>): (r: seq<Item>)
    requires at < |script.items| && |parts| >= 1
    ensures |r| == |parts| && (script.idField in ID_FIELDS ==> forall i | 1 <= i < |r| :: NoMedia(r[i]))
  {
    var ids := Ids(script.idField, script.items);
    [AnchorPart(script.idField, parts[0], script.items[at], ids[at])]
    + FurtherParts(script.idField, ids[at], parts[1..], Taken(ids))
  }
}
