/** The two markers the batch editor derives from an item's own fields (lib/script/script_batch_edit.py,
    lib/script/prompt_authoring_scope.py, lib/speech/speech_composition): `pending_authoring` while the
    visual layer is incomplete, `needs_replan` while the speech of an item is not admitted. */
module DerivedMarkers {
  import opened ScriptEditor
  import VerbatimCoverage

  /** The speech validator: what it makes of an item, and whether that is admitted. It reads neither
      marker when asked to ignore them, which is how the editor asks. */
  datatype Rules = Rules(prepare: Item -> Json, admitted: Json -> bool)

  /** An item without its derived markers. */
  function Core(item: Item): Item {
    item - {PENDING, REPLAN}
  }

  function Prepared(rules: Rules, item: Item): Json {
    rules.prepare(Core(item))
  }

  predicate IsVideoUnit(idField: string) {
    idField == "unit_id"
  }

  /** The fields of the visual layer; the text of a video unit is its visual layer. */
  function VisualLayer(idField: string): set<string> {
    if IsVideoUnit(idField) then {"text"} else {"image_prompt", "video_prompt"}
  }

  predicate Filled(value: Json) {
    match value
    case Null => false
    case Bool(b) => b
    case Num(n) => n != 0
    case Str(s) => VerbatimCoverage.Strip(s) != ""
    case Arr(elems) => elems != []
    case Obj(fields) => fields != map[]
  }

  predicate VisualComplete(idField: string, item: Item) {
    forall field <- VisualLayer(idField) :: field in item && Filled(item[field])
  }

  /** A video unit that has to be planned again. */
  predicate Unplanned(rules: Rules, item: Item) {
    || "text" !in item || !item["text"].Str? || VerbatimCoverage.Strip(item["text"].s) == ""
    || "duration_seconds" !in item || !item["duration_seconds"].Num? || item["duration_seconds"].n <= 0
    || !rules.admitted(Prepared(rules, item))
  }

  ghost predicate HasContent(s: string) {
    exists i :: 0 <= i < |s| && !VerbatimCoverage.IsSpace(s[i])
  }

  /** A visual field is written when it is text with something in it, or any other value that is not
      empty, zero, false or null. */
  lemma FilledIff(value: Json)
    ensures Filled(value) <==>
      if value.Str? then HasContent(value.s) else value !in {Null, Bool(false), Num(0), Arr([]), Obj(map[])}
  {
    if value.Str? { VerbatimCoverage.StripIsEmptyIff(value.s); }
  }

  /** The visual layer is the text of a video unit, and both prompts of any other item. */
  lemma VisualCompleteIff(idField: string, item: Item)
    ensures VisualComplete(idField, item) <==>
      if idField == "unit_id" then "text" in item && Filled(item["text"])
      else
        && "image_prompt" in item && Filled(item["image_prompt"])
        && "video_prompt" in item && Filled(item["video_prompt"])
  {
  }

  /** A video unit is planned when it has a text with something in it and a positive duration, and its
      speech, read without the markers, is admitted. */
  lemma PlannedIff(rules: Rules, item: Item)
    ensures !Unplanned(rules, item) <==>
      && "text" in item && item["text"].Str? && HasContent(item["text"].s)
      && "duration_seconds" in item && item["duration_seconds"].Num? && item["duration_seconds"].n > 0
      && rules.admitted(rules.prepare(item - {"pending_authoring", "needs_replan"}))
  {
    if "text" in item && item["text"].Str? { VerbatimCoverage.StripIsEmptyIff(item["text"].s); }
  }

  /** The marker set to true or taken off. */
  function Marked(item: Item, key: string, on: bool): Item {
    if on then item[key := Bool(true)] else Without(item, key)
  }

  /** The item already carries the marker as it should be. */
  predicate CarriesMarker(item: Item, key: string, on: bool) {
    if on then key in item && item[key] == Bool(true) else key !in item
  }

  lemma MarkedIsIdentityIff(item: Item, key: string, on: bool)
    ensures Marked(item, key, on) == item <==> CarriesMarker(item, key, on)
  {
    assert on && CarriesMarker(item, key, on) ==> item[key := Bool(true)] == item;
    assert on && Marked(item, key, on) == item ==> Marked(item, key, on)[key] == item[key];
    assert !on && key !in item ==> item - {key} == item;
    assert key !in item - {key};
  }

  // ----- Insertion -----

  /** An inserted item: the markers the caller sent are not trusted. */
  function AfterInsert(rules: Rules, idField: string, item: Item): (r: Item)
    ensures Core(r) == Core(item)
  {
    var pending := Marked(item, PENDING, !VisualComplete(idField, item));
    if IsVideoUnit(idField) then Marked(pending, REPLAN, Unplanned(rules, pending)) else pending
  }

  /** The item's own fields already justify the markers it carries. */
  predicate InsertKeeps(rules: Rules, idField: string, item: Item) {
    && CarriesMarker(item, PENDING, !VisualComplete(idField, item))
    && (IsVideoUnit(idField) ==> CarriesMarker(item, REPLAN, Unplanned(rules, item)))
  }

  lemma InsertKeepsIff(rules: Rules, idField: string, item: Item)
    ensures AfterInsert(rules, idField, item) == item <==> InsertKeeps(rules, idField, item)
  {
    var pending := Marked(item, PENDING, !VisualComplete(idField, item));
    MarkedIsIdentityIff(item, PENDING, !VisualComplete(idField, item));
    if IsVideoUnit(idField) {
      UnplannedIgnoresMarkers(rules, pending, item);
      MarkedIsIdentityIff(item, REPLAN, Unplanned(rules, item));
      MarkersAreApart(pending, item, REPLAN, PENDING, Unplanned(rules, item));
    }
  }

  lemma UnplannedIgnoresMarkers(rules: Rules, a: Item, b: Item)
    requires Core(a) == Core(b)
    ensures Unplanned(rules, a) == Unplanned(rules, b)
  {
    SameField(a, b, "text");
    SameField(a, b, "duration_seconds");
  }

  /** Items that agree but for the markers agree on every other field. */
  lemma SameField(a: Item, b: Item, key: string)
    requires Core(a) == Core(b) && key != PENDING && key != REPLAN
    ensures key in a <==> key in b
    ensures key in a ==> a[key] == b[key]
  {
    assert key in a <==> key in Core(a);
    assert key in b <==> key in Core(b);
    if key in a { assert Core(a)[key] == Core(b)[key]; }
  }

  /** Setting one marker cannot undo a change of the other. */
  lemma MarkersAreApart(changed: Item, item: Item, key: string, other: string, on: bool)
    requires key != other && changed - {other} == item - {other}
    ensures Marked(changed, key, on) == item ==> changed == item
  {
    if Marked(changed, key, on) == item {
      SameElsewhere(changed, item, other, key);
      forall k | k != key
        ensures k in Marked(changed, key, on) <==> k in changed
        ensures k in changed ==> Marked(changed, key, on)[k] == changed[k]
      {
      }
    }
  }

  lemma SameElsewhere(a: Item, b: Item, other: string, k: string)
    requires a - {other} == b - {other} && k != other
    ensures (k in a <==> k in b) && (k in a ==> a[k] == b[k])
  {
    assert k in a <==> k in a - {other};
    assert k in b <==> k in b - {other};
    if k in a { assert (a - {other})[k] == (b - {other})[k]; }
  }

  // ----- Update -----

  /** The top-level fields an update writes to. */
  function Roots(fields: seq<Field>): set<string> {
    set i | 0 <= i < |fields| && fields[i].parts != [] :: fields[i].parts[0]
  }

  /** An updated item: a visual field that completes the layer takes the pending marker off; the
      replanning marker follows the planning fields of a video unit, and elsewhere goes when the speech
      changed and is admitted. */
  function AfterUpdate(rules: Rules, idField: string, fields: seq<Field>, before: Item, item: Item): (r: Item)
    ensures Core(r) == Core(item)
  {
    var authored := if AuthoringEnds(idField, fields, item) then Without(item, PENDING) else item;
    if IsVideoUnit(idField) then
      if Roots(fields) * {"text", "duration_seconds"} != {}
      then Marked(authored, REPLAN, Unplanned(rules, authored)) else authored
    else if SpeechRepaired(rules, before, authored) then Without(authored, REPLAN) else authored
  }

  predicate AuthoringEnds(idField: string, fields: seq<Field>, item: Item) {
    Roots(fields) * VisualLayer(idField) != {} && VisualComplete(idField, item)
  }

  predicate SpeechRepaired(rules: Rules, before: Item, item: Item) {
    Prepared(rules, item) != Prepared(rules, before) && rules.admitted(Prepared(rules, item))
  }

  /** The update has no marker to take off and none to set. */
  predicate UpdateKeeps(rules: Rules, idField: string, fields: seq<Field>, before: Item, item: Item) {
    && (AuthoringEnds(idField, fields, item) ==> PENDING !in item)
    && if IsVideoUnit(idField) then
         Roots(fields) * {"text", "duration_seconds"} != {} ==> CarriesMarker(item, REPLAN, Unplanned(rules, item))
       else SpeechRepaired(rules, before, item) ==> REPLAN !in item
  }

  lemma UpdateKeepsIff(rules: Rules, idField: string, fields: seq<Field>, before: Item, item: Item)
    ensures AfterUpdate(rules, idField, fields, before, item) == item <==>
            UpdateKeeps(rules, idField, fields, before, item)
  {
    var ends := AuthoringEnds(idField, fields, item);
    var authored := if ends then Marked(item, PENDING, false) else item;
    MarkedIsIdentityIff(item, PENDING, false);
    UnplannedIgnoresMarkers(rules, authored, item);
    MarkedIsIdentityIff(item, REPLAN, Unplanned(rules, item));
    MarkedIsIdentityIff(item, REPLAN, false);
    MarkersAreApart(authored, item, REPLAN, PENDING, Unplanned(rules, item));
    MarkersAreApart(authored, item, REPLAN, PENDING, false);
    assert Core(authored) == Core(item);
  }

  /** Two updates that leave an item as it is can differ in its marker: what counts is which fields
      they name. */
  lemma NamedFieldsDecide(rules: Rules, item: Item)
    requires "image_prompt" in item && "note" in item && PENDING in item && VisualComplete("segment_id", item)
    ensures var note := [Field(["note"], item["note"])];
            var prompt := [Field(["image_prompt"], item["image_prompt"])];
            && item["note" := item["note"]] == item["image_prompt" := item["image_prompt"]] == item
            && UpdateKeeps(rules, "segment_id", note, item, item)
            && !UpdateKeeps(rules, "segment_id", prompt, item, item)
  {
    var note, prompt := [Field(["note"], item["note"])], [Field(["image_prompt"], item["image_prompt"])];
    assert note[0].parts[0] == "note" && Roots(note) <= {"note"};
    assert prompt[0].parts[0] in Roots(prompt) && "image_prompt" in Roots(prompt) * VisualLayer("segment_id");
  }
}
