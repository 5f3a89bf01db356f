/** Reference-video script plans as drafts: the flat shape an agent edits, and the numbered units
    that are stored (server/draft_workflow.py and server/text_generation.py). */
module ReferencePlan {
  import opened ScriptEditor
  import opened ItemIds
  import opened VerbatimCoverage
  import P = DraftProtocol

  const UNITS := "units"
  const NEW_ASSETS := "new_assets"

  type Fields = map<string, Json>

  // ----- Stored units to flat units -----

  function Get(fields: Fields, key: string, missing: Json): Json {
    if key in fields then fields[key] else missing
  }

  function FlatOf(duration: Json, source: Json, text: Json): Json {
    Obj(map["duration_seconds" := duration, "source_text" := source, "text" := text])
  }

  /** The flat form of one stored unit; a malformed unit keeps its place and what it has. */
  function Flattened(unit: Json): Json {
    if !unit.Obj? then FlatOf(Null, Str(""), Str(""))
    else
      var text := Get(unit.fields, "text", Null);
      FlatOf(Get(unit.fields, "duration_seconds", Null), Get(unit.fields, "source_text", Str("")),
             if text.Str? then text else Str(""))
  }

  /** Text that is no string counts as empty, a missing source as empty and a missing duration as null;
      everything else is handed on as it is. */
  lemma FlattenedReads(unit: Json)
    ensures Flattened(unit).Obj? && Flattened(unit).fields.Keys == {"duration_seconds", "source_text", "text"}
    ensures var flat := Flattened(unit).fields; var given: Fields := if unit.Obj? then unit.fields else map[];
      && flat["text"] == (if "text" in given && given["text"].Str? then given["text"] else Str(""))
      && flat["source_text"] == (if "source_text" in given then given["source_text"] else Str(""))
      && flat["duration_seconds"] == (if "duration_seconds" in given then given["duration_seconds"] else Null)
  {
  }

  function AllFlattened(units: seq<Json>): (r: seq<Json>)
    ensures |r| == |units| && forall i | 0 <= i < |units| :: r[i] == Flattened(units[i])
  {
    seq(|units|, i requires 0 <= i < |units| => Flattened(units[i]))
  }

  method FlattenUnits(units: seq<Json>) returns (flat: seq<Json>)
    ensures flat == AllFlattened(units)
  {
    flat := [];
    for i := 0 to |units|
      invariant |flat| == i && forall j | 0 <= j < i :: flat[j] == Flattened(units[j])
    {
      var unit := units[i];
      if !unit.Obj? {
        flat := flat + [FlatOf(Null, Str(""), Str(""))];
      } else {
        var text := Get(unit.fields, "text", Null);
        var duration := Get(unit.fields, "duration_seconds", Null);
        var source := Get(unit.fields, "source_text", Str(""));
        flat := flat + [FlatOf(duration, source, if text.Str? then text else Str(""))];
      }
    }
  }

  predicate HasUnits(plan: Json) {
    plan.Obj? && UNITS in plan.fields && plan.fields[UNITS].Arr? && plan.fields[UNITS].elems != []
  }

  function Units(plan: Json): seq<Json>
    requires HasUnits(plan)
  {
    plan.fields[UNITS].elems
  }

  /** The draft an agent gets for a stored plan, None when the plan has no unit list. */
  function DraftShape(plan: Json): Option<Json> {
    if !HasUnits(plan) then None
    else
      var kept: Fields := if NEW_ASSETS in plan.fields then map[NEW_ASSETS := plan.fields[NEW_ASSETS]] else map[];
      Some(Obj(map[UNITS := Arr(AllFlattened(Units(plan)))] + kept))
  }

  // ----- The schema -----

  /** A duration written as a digit string counts as the number. */
  function Coerced(duration: Json): Json {
    if duration.Str? then
      var s := Strip(duration.s);
      if s != "" && (forall c <- s :: IsDigit(c)) then Num(Value(s)) else duration
    else duration
  }

  /** Only a string of digits, blanks around it aside, is taken for a number, and for the one it writes. */
  lemma CoercedIff(duration: Json)
    ensures Coerced(duration) ==
      if duration.Str? && AllDigits(Strip(duration.s)) then Num(Value(Strip(duration.s))) else duration
  {
    if duration.Str? {
      var s := Strip(duration.s);
      assert (forall c <- s :: IsDigit(c)) <==> forall i | 0 <= i < |s| :: IsDigit(s[i]);
    }
  }

  /** A number that is written out counts as the number. */
  lemma WrittenDurationCounts(n: nat)
    ensures Coerced(Str(Dec(n))) == Num(n)
  {
    DecIsDigits(n);
    ValueOfDec(n);
    DigitsAreNotBlank(Dec(n));
    CoercedIff(Str(Dec(n)));
  }

  lemma DigitsAreNotBlank(s: string)
    requires AllDigits(s)
    ensures Strip(s) == s
  {
    DigitsKeepTheirEnd(s);
  }

  lemma {:induction false} DigitsKeepTheirEnd(s: string)
    requires forall i | 0 <= i < |s| :: IsDigit(s[i])
    ensures TrimRight(s) == s
  {
    if s != "" { DigitsKeepTheirEnd(s[1..]); }
  }

  predicate NonEmpty(j: Json) {
    j.Str? && j.s != ""
  }

  function ParsedUnit(durations: set<int>, j: Json): Option<Json> {
    if j.Obj? && j.fields.Keys == {"duration_seconds", "source_text", "text"} then
      var duration := Coerced(j.fields["duration_seconds"]);
      if
        && duration.Num? && duration.n in durations
        && NonEmpty(j.fields["source_text"]) && NonEmpty(j.fields["text"])
      then Some(FlatOf(duration, j.fields["source_text"], j.fields["text"]))
      else None
    else None
  }

  const ASSET_DEFAULTS: Fields :=
    map["description" := Str(""), "aliases" := Arr([]), "target" := Str(""), "asset_name" := Str("")]

  predicate AssetField(key: string, value: Json) {
    match key
    case "type" => value in {Str("character"), Str("scene"), Str("prop")}
    case "name" => NonEmpty(value)
    case "decision" => value in {Str("register"), Str("merge"), Str("derivative"), Str("skip")}
    case "reason" => value.Str?
    case "description" => value.Str?
    case "aliases" => value.Arr? && forall i | 0 <= i < |value.elems| :: value.elems[i].Str?
    case "target" => value.Str?
    case "asset_name" => value.Str?
    case _ => false
  }

  function ParsedAsset(j: Json): Option<Json> {
    if
      && j.Obj? && {"type", "name", "decision", "reason"} <= j.fields.Keys
      && forall key <- j.fields :: AssetField(key, j.fields[key])
    then Some(Obj(ASSET_DEFAULTS + j.fields))
    else None
  }

  /** What a new asset has to look like, field by field, and what it is completed with. */
  lemma ParsedAssetIff(j: Json)
    ensures ParsedAsset(j).Some? <==>
      && j.Obj?
      && {"type", "name", "decision", "reason"} <= j.fields.Keys
      && j.fields.Keys <= {"type", "name", "decision", "reason", "description", "aliases", "target", "asset_name"}
      && (j.fields["type"] == Str("character") || j.fields["type"] == Str("scene") || j.fields["type"] == Str("prop"))
      && j.fields["name"].Str? && j.fields["name"].s != ""
      && IsDecision(j.fields["decision"]) && j.fields["reason"].Str?
      && (forall key <- {"description", "target", "asset_name"} :: key in j.fields ==> j.fields[key].Str?)
      && ("aliases" in j.fields ==> IsStrings(j.fields["aliases"]))
    ensures ParsedAsset(j).Some? ==>
      && ParsedAsset(j).value.Obj?
      && var fields := ParsedAsset(j).value.fields;
         && (forall key <- j.fields :: key in fields && fields[key] == j.fields[key])
         && (forall key <- {"description", "target", "asset_name"} :: key !in j.fields ==>
               key in fields && fields[key] == Str(""))
         && ("aliases" !in j.fields ==> "aliases" in fields && fields["aliases"] == Arr([]))
  {
    if j.Obj? {
      forall key | key in j.fields && AssetField(key, j.fields[key])
        ensures key in {"type", "name", "decision", "reason", "description", "aliases", "target", "asset_name"}
      {
      }
    }
  }

  predicate IsDecision(value: Json) {
    value == Str("register") || value == Str("merge") || value == Str("derivative") || value == Str("skip")
  }

  predicate IsStrings(value: Json) {
    value.Arr? && forall j <- value.elems :: j.Str?
  }

  /** Every element parsed, None when one does not parse. */
  function Parsed(parse: Json -> Option<Json>, js: seq<Json>): (r: Option<seq<Json>>)
    ensures r.Some? <==> forall i | 0 <= i < |js| :: parse(js[i]).Some?
    ensures r.Some? ==> |r.value| == |js| && forall i | 0 <= i < |js| :: parse(js[i]) == Some(r.value[i])
  {
    if js == [] then Some([])
    else
      var first, rest := parse(js[0]), Parsed(parse, js[1..]);
      if first.Some? && rest.Some? then Some([first.value] + rest.value)
      else
        assert rest.None? ==> exists i | 0 <= i < |js[1..]| :: parse(js[1..][i]).None? && js[1..][i] == js[i + 1];
        None
  }

  // ----- New assets -----

  /** Assets of one type with the same trimmed name are one asset. */
  function Marker(asset: Json): (Json, string) {
    if asset.Obj? then
      var name := Get(asset.fields, "name", Null);
      (Get(asset.fields, "type", Null), if name.Str? then Strip(name.s) else "")
    else (Null, "")
  }

  /** Two named assets count as one exactly when type and trimmed name agree. */
  lemma SameMarkerIff(a: Json, b: Json)
    requires a.Obj? && "type" in a.fields && "name" in a.fields && a.fields["name"].Str?
    requires b.Obj? && "type" in b.fields && "name" in b.fields && b.fields["name"].Str?
    ensures Marker(a) == Marker(b) <==>
      a.fields["type"] == b.fields["type"] && Strip(a.fields["name"].s) == Strip(b.fields["name"].s)
  {
  }

  function Markers(assets: seq<Json>): (r: set<(Json, string)>)
    ensures forall m :: m in r <==> exists i | 0 <= i < |assets| :: Marker(assets[i]) == m
  {
    set i | 0 <= i < |assets| :: Marker(assets[i])
  }

  /** The first asset of every marker. */
  function Deduped(assets: seq<Json>): seq<Json> {
    if assets == [] then []
    else
      var last := assets[|assets| - 1];
      var before := Deduped(assets[..|assets| - 1]);
      if Marker(last) in Markers(assets[..|assets| - 1]) then before else before + [last]
  }

  method DedupeNewAssets(assets: seq<Json>) returns (result: seq<Json>)
    ensures result == Deduped(assets)
  {
    var seen := {};
    result := [];
    for i := 0 to |assets|
      invariant seen == Markers(assets[..i]) && result == Deduped(assets[..i])
    {
      assert assets[..i + 1] == assets[..i] + [assets[i]] && assets[..i + 1][..i] == assets[..i];
      MarkersOfAppend(assets[..i], assets[i]);
      if Marker(assets[i]) !in seen {
        seen := seen + {Marker(assets[i])};
        result := result + [assets[i]];
      }
    }
    assert assets[..|assets|] == assets;
  }

  ghost predicate Distinct(assets: seq<Json>) {
    forall i, j | 0 <= i < j < |assets| :: Marker(assets[i]) != Marker(assets[j])
  }

  /** Every marker keeps exactly one asset, and assets without a double stay as they are. */
  lemma {:induction false} DedupedIsDistinct(assets: seq<Json>)
    ensures Distinct(Deduped(assets)) && Markers(Deduped(assets)) == Markers(assets)
    ensures Deduped(assets) == assets <==> Distinct(assets)
    ensures |Deduped(assets)| <= |assets|
  {
    if assets != [] {
      var n := |assets| - 1;
      var before, last := assets[..n], assets[n];
      DedupedIsDistinct(before);
      assert assets == before + [last];
      MarkersOfAppend(before, last);
      DistinctOfAppend(before, last);
      if Marker(last) !in Markers(before) {
        MarkersOfAppend(Deduped(before), last);
        DistinctOfAppend(Deduped(before), last);
        AppendedEqual(Deduped(before), before, last);
      }
    }
  }

  /** No earlier asset has the marker of the `i`-th. */
  ghost predicate IsFirst(assets: seq<Json>, i: nat) {
    i < |assets| && Marker(assets[i]) !in Markers(assets[..i])
  }

  /** Exactly the first asset of every marker is kept. */
  lemma {:induction false} FirstsAreKept(assets: seq<Json>, x: Json)
    ensures x in Deduped(assets) <==> exists i: nat :: IsFirst(assets, i) && assets[i] == x
  {
    if assets != [] {
      var n := |assets| - 1;
      FirstsAreKept(assets[..n], x);
      assert x in Deduped(assets) <==> x in Deduped(assets[..n]) || (IsFirst(assets, n) && assets[n] == x);
      FirstsOfBeginning(assets, x);
    }
  }

  lemma FirstsOfBeginning(assets: seq<Json>, x: Json)
    requires assets != []
    ensures var n := |assets| - 1;
      (exists i: nat :: IsFirst(assets, i) && assets[i] == x) <==>
      (exists i: nat :: IsFirst(assets[..n], i) && assets[..n][i] == x) || (IsFirst(assets, n) && assets[n] == x)
  {
    var n := |assets| - 1;
    forall i: nat | i < n ensures IsFirst(assets, i) <==> IsFirst(assets[..n], i) {
      assert assets[..n][..i] == assets[..i];
    }
    if i: nat :| IsFirst(assets[..n], i) && assets[..n][i] == x {
      assert IsFirst(assets, i) && assets[i] == x;
    }
    if i: nat :| IsFirst(assets, i) && assets[i] == x && i < n {
      assert IsFirst(assets[..n], i) && assets[..n][i] == x;
    }
  }

  /** They are kept in order: what a longer list keeps continues what its beginning keeps. */
  lemma {:induction false} KeptInOrder(assets: seq<Json>, n: nat)
    requires n <= |assets|
    ensures Deduped(assets[..n]) <= Deduped(assets)
  {
    if n < |assets| {
      KeptInOrder(assets[..|assets| - 1], n);
      assert assets[..|assets| - 1][..n] == assets[..n];
    } else {
      assert assets[..n] == assets;
    }
  }

  lemma DistinctOfAppend(assets: seq<Json>, last: Json)
    ensures Distinct(assets + [last]) <==> Distinct(assets) && Marker(last) !in Markers(assets)
  {
    var all := assets + [last];
    forall i | 0 <= i < |assets| ensures all[i] == assets[i] {}
    if Distinct(all) {
      assert forall i | 0 <= i < |assets| :: Marker(all[i]) != Marker(all[|assets|]);
    }
  }

  lemma AppendedEqual(a: seq<Json>, b: seq<Json>, last: Json)
    ensures a + [last] == b + [last] <==> a == b
  {
    assert (a + [last])[..|a|] == a && (b + [last])[..|b|] == b;
  }

  lemma MarkersOfAppend(assets: seq<Json>, last: Json)
    ensures Markers(assets + [last]) == Markers(assets) + {Marker(last)}
  {
    assert (assets + [last])[|assets|] == last;
    forall m | m in Markers(assets) ensures m in Markers(assets + [last]) {
      var i :| 0 <= i < |assets| && Marker(assets[i]) == m;
      assert (assets + [last])[i] == assets[i];
    }
  }

  function WithNewAssets(content: Fields, assets: seq<Json>): Fields {
    var bare := content - {NEW_ASSETS};
    if Deduped(assets) == [] then bare else bare[NEW_ASSETS := Arr(Deduped(assets))]
  }

  // ----- Revalidation and rebuilding -----

  /** What revalidation depends on: the model's durations, and the validators of the flat units. */
  datatype Rules = Rules(
    durations: set<int>,
    problems: (seq<Json>, seq<Json>) -> seq<P.Violation>,
    schemaProblems: Json -> seq<P.Violation>)

  datatype Revalidated = SchemaFailed | Flat(units: seq<Json>, newAssets: seq<Json>)

  function Revalidate(rules: Rules, content: Json): Revalidated {
    if !HasUnits(content) then SchemaFailed
    else
      var units := Parsed(j => ParsedUnit(rules.durations, j), Units(content));
      var assets := Get(content.fields, NEW_ASSETS, Arr([]));
      if units.None? || !assets.Arr? then SchemaFailed
      else
        var parsed := Parsed(ParsedAsset, assets.elems);
        if parsed.None? then SchemaFailed else Flat(units.value, Deduped(parsed.value))
  }

  function FlatContent(units: seq<Json>, assets: seq<Json>): Json {
    Obj(WithNewAssets(map[UNITS := Arr(units)], assets))
  }

  /** The promotion's answer for a draft's content. */
  function Judge(rules: Rules, content: Json): P.Verdict {
    match Revalidate(rules, content)
    case SchemaFailed => P.Malformed(rules.schemaProblems(content))
    case Flat(units, assets) =>
      var problems := rules.problems(units, assets);
      if problems == [] then P.Accepted(FlatContent(units, assets))
      else P.Violating(FlatContent(units, assets), problems)
  }

  /** The answer is acceptance exactly when the content fits the schema and no validator objects. */
  lemma JudgeIff(rules: Rules, content: Json)
    ensures Judge(rules, content).Malformed? <==> Revalidate(rules, content).SchemaFailed?
    ensures Judge(rules, content).Accepted? <==>
      && Revalidate(rules, content).Flat?
      && rules.problems(Revalidate(rules, content).units, Revalidate(rules, content).newAssets) == []
    ensures Judge(rules, content).Violating? ==>
      Judge(rules, content).problems ==
      rules.problems(Revalidate(rules, content).units, Revalidate(rules, content).newAssets)
  {
  }

  function UnitId(episode: nat, index: nat): string {
    "E" + Dec(episode) + "U" + Pad2(index)
  }

  /** The id of a unit says its episode and its place. */
  lemma UnitIdParses(episode: nat, index: nat)
    ensures ParseId(UnitId(episode, index)) == Some((episode, index))
  {
    DecIsDigits(episode);
    DecIsDigits(index);
    ValueOfDec(episode);
    ValueOfPad2(index);
    assert UnitId(episode, index) == "E" + Dec(episode) + ['U'] + Pad2(index) + "";
    ShapeIsParsed(UnitId(episode, index), Dec(episode), 'U', Pad2(index), "");
  }

  predicate IsFlat(j: Json) {
    j.Obj? && j.fields.Keys == {"duration_seconds", "source_text", "text"}
  }

  function StoredUnit(id: string, flat: Json): Json {
    if IsFlat(flat) then Obj(flat.fields["unit_id" := Str(id)]) else flat
  }

  function Stored(episode: nat, flat: seq<Json>): (r: seq<Json>)
    ensures |r| == |flat| && forall i | 0 <= i < |flat| :: r[i] == StoredUnit(UnitId(episode, i + 1), flat[i])
  {
    seq(|flat|, i requires 0 <= i < |flat| => StoredUnit(UnitId(episode, i + 1), flat[i]))
  }

  /** The stored plan for accepted draft content. */
  function Rebuilt(episode: nat, content: Json): Json {
    if HasUnits(content) then
      Obj(content.fields[UNITS := Arr(Stored(episode, Units(content)))])
    else content
  }

  method BuildUnit(id: string, flat: Json) returns (unit: Json)
    requires IsFlat(flat)
    ensures unit == StoredUnit(id, flat)
  {
    var fields := flat.fields;
    unit := Obj(map[
      "unit_id" := Str(id), "text" := fields["text"],
      "duration_seconds" := fields["duration_seconds"], "source_text" := fields["source_text"]]);
  }

  predicate TextsPass(flat: seq<Json>, textOk: Json -> bool) {
    forall i | 0 <= i < |flat| :: IsFlat(flat[i]) && textOk(flat[i].fields["text"])
  }

  /** Numbers the units in order; the text of every unit is checked once more. */
  method BuildUnits(episode: nat, flat: seq<Json>, textOk: Json -> bool) returns (units: Option<seq<Json>>)
    requires forall i | 0 <= i < |flat| :: IsFlat(flat[i])
    ensures units == if TextsPass(flat, textOk) then Some(Stored(episode, flat)) else None
  {
    var built := [];
    for i := 0 to |flat|
      invariant |built| == i && forall j | 0 <= j < i :: textOk(flat[j].fields["text"])
      invariant forall j | 0 <= j < i :: built[j] == StoredUnit(UnitId(episode, j + 1), flat[j])
    {
      if !textOk(flat[i].fields["text"]) {
        return None;
      }
      var unit := BuildUnit(UnitId(episode, i + 1), flat[i]);
      built := built + [unit];
    }
    assert built == Stored(episode, flat);
    units := Some(built);
  }

  // ----- Round trips -----

  /** Numbering a flat unit and flattening it again gives the flat unit. */
  lemma FlatIsRecovered(id: string, flat: Json)
    requires IsFlat(flat) && flat.fields["text"].Str?
    ensures Flattened(StoredUnit(id, flat)) == flat
  {
    assert Flattened(StoredUnit(id, flat)).fields == flat.fields;
  }

  lemma ParsedUnitIsStable(durations: set<int>, j: Json)
    requires ParsedUnit(durations, j).Some?
    ensures var u := ParsedUnit(durations, j).value;
            IsFlat(u) && NonEmpty(u.fields["text"]) && ParsedUnit(durations, u) == Some(u)
  {
  }

  lemma ParsedAssetIsStable(j: Json)
    requires ParsedAsset(j).Some?
    ensures ParsedAsset(ParsedAsset(j).value) == ParsedAsset(j)
  {
    var a := ParsedAsset(j).value;
    assert forall key <- a.fields :: AssetField(key, a.fields[key]);
    assert ASSET_DEFAULTS + a.fields == a.fields;
  }

  /** Content as revalidation writes it back: parsed units, and distinct parsed new assets if any. */
  ghost predicate Normal(durations: set<int>, units: seq<Json>, assets: seq<Json>) {
    && units != [] && Distinct(assets)
    && (forall i | 0 <= i < |units| :: ParsedUnit(durations, units[i]) == Some(units[i]))
    && forall i | 0 <= i < |assets| :: ParsedAsset(assets[i]) == Some(assets[i])
  }

  lemma {:induction false} DedupedAreParsed(assets: seq<Json>)
    requires forall i | 0 <= i < |assets| :: ParsedAsset(assets[i]) == Some(assets[i])
    ensures forall i | 0 <= i < |Deduped(assets)| :: ParsedAsset(Deduped(assets)[i]) == Some(Deduped(assets)[i])
  {
    if assets != [] { DedupedAreParsed(assets[..|assets| - 1]); }
  }

  lemma RevalidationIsNormal(rules: Rules, content: Json)
    requires Revalidate(rules, content).Flat?
    ensures var r := Revalidate(rules, content);
            Normal(rules.durations, r.units, r.newAssets) && |r.units| == |Units(content)|
  {
    var r := Revalidate(rules, content);
    forall i | 0 <= i < |r.units|
      ensures ParsedUnit(rules.durations, r.units[i]) == Some(r.units[i])
    {
      ParsedUnitIsStable(rules.durations, Units(content)[i]);
    }
    var assets := Get(content.fields, NEW_ASSETS, Arr([])).elems;
    var parsed := Parsed(ParsedAsset, assets).value;
    forall i | 0 <= i < |parsed| ensures ParsedAsset(parsed[i]) == Some(parsed[i]) {
      ParsedAssetIsStable(assets[i]);
    }
    DedupedAreParsed(parsed);
    DedupedIsDistinct(parsed);
  }

  /** Revalidating what revalidation wrote back changes nothing. */
  lemma NormalContentIsStable(rules: Rules, units: seq<Json>, assets: seq<Json>)
    requires Normal(rules.durations, units, assets)
    ensures Revalidate(rules, FlatContent(units, assets)) == Flat(units, assets)
  {
    FlatContentHolds(units, assets);
    ParsedUnchanged(j => ParsedUnit(rules.durations, j), units);
    ParsedUnchanged(ParsedAsset, assets);
    DedupedIsDistinct(assets);
  }

  lemma FlatContentHolds(units: seq<Json>, assets: seq<Json>)
    requires units != [] && Distinct(assets)
    ensures var content := FlatContent(units, assets);
      HasUnits(content) && Units(content) == units && Get(content.fields, NEW_ASSETS, Arr([])) == Arr(assets)
  {
    DedupedIsDistinct(assets);
  }

  lemma ParsedUnchanged(parse: Json -> Option<Json>, js: seq<Json>)
    requires forall i | 0 <= i < |js| :: parse(js[i]) == Some(js[i])
    ensures Parsed(parse, js) == Some(js)
  {
    assert Parsed(parse, js).value == js;
  }

  predicate CanonicalUnit(durations: set<int>, id: string, unit: Json) {
    && unit.Obj? && unit.fields.Keys == {"unit_id", "text", "duration_seconds", "source_text"}
    && unit.fields["unit_id"] == Str(id)
    && unit.fields["duration_seconds"].Num? && unit.fields["duration_seconds"].n in durations
    && NonEmpty(unit.fields["source_text"]) && NonEmpty(unit.fields["text"])
  }

  predicate CanonicalAsset(asset: Json) {
    && asset.Obj? && {"type", "name", "decision", "reason"} + ASSET_DEFAULTS.Keys <= asset.fields.Keys
    && forall key <- asset.fields :: AssetField(key, asset.fields[key])
  }

  /** No keys but units and new assets; units complete and numbered in order, with durations of the
      model; new assets only when there are some, complete and without doubles. */
  ghost predicate Canonical(durations: set<int>, episode: nat, plan: Json) {
    && HasUnits(plan) && plan.fields.Keys <= {UNITS, NEW_ASSETS}
    && (forall i | 0 <= i < |Units(plan)| :: CanonicalUnit(durations, UnitId(episode, i + 1), Units(plan)[i]))
    && (NEW_ASSETS in plan.fields ==>
          && plan.fields[NEW_ASSETS].Arr? && plan.fields[NEW_ASSETS].elems != []
          && Distinct(plan.fields[NEW_ASSETS].elems)
          && forall i | 0 <= i < |plan.fields[NEW_ASSETS].elems| :: CanonicalAsset(plan.fields[NEW_ASSETS].elems[i]))
  }

  lemma CanonicalUnitIsStored(durations: set<int>, id: string, unit: Json)
    requires CanonicalUnit(durations, id, unit)
    ensures ParsedUnit(durations, Flattened(unit)) == Some(Flattened(unit)) && StoredUnit(id, Flattened(unit)) == unit
  {
    assert StoredUnit(id, Flattened(unit)).fields == unit.fields;
  }

  lemma CanonicalAssetIsParsed(asset: Json)
    ensures CanonicalAsset(asset) <==> ParsedAsset(asset) == Some(asset)
  {
    if CanonicalAsset(asset) {
      assert ASSET_DEFAULTS + asset.fields == asset.fields;
    }
  }

  /** A canonical plan is what its own flat form is stored as. */
  lemma CanonicalIsRebuilt(rules: Rules, episode: nat, plan: Json) returns (units: seq<Json>, assets: seq<Json>)
    requires Canonical(rules.durations, episode, plan)
    ensures Normal(rules.durations, units, assets) && plan == Rebuilt(episode, FlatContent(units, assets))
  {
    units, assets := AllFlattened(Units(plan)), Get(plan.fields, NEW_ASSETS, Arr([])).elems;
    forall i | 0 <= i < |units|
      ensures ParsedUnit(rules.durations, units[i]) == Some(units[i])
      ensures Stored(episode, units)[i] == Units(plan)[i]
    {
      CanonicalUnitIsStored(rules.durations, UnitId(episode, i + 1), Units(plan)[i]);
    }
    forall i | 0 <= i < |assets| ensures ParsedAsset(assets[i]) == Some(assets[i]) {
      CanonicalAssetIsParsed(assets[i]);
    }
    assert Stored(episode, units) == Units(plan);
    OnlyUnitsAndAssets(episode, plan, units, assets);
  }

  lemma OnlyUnitsAndAssets(episode: nat, plan: Json, units: seq<Json>, assets: seq<Json>)
    requires HasUnits(plan) && plan.fields.Keys <= {UNITS, NEW_ASSETS} && units != [] && Distinct(assets)
    requires Units(plan) == Stored(episode, units)
    requires if NEW_ASSETS in plan.fields then plan.fields[NEW_ASSETS] == Arr(assets) && assets != [] else assets == []
    ensures plan == Rebuilt(episode, FlatContent(units, assets))
  {
    DedupedIsDistinct(assets);
    RebuiltUnits(episode, units, assets);
    assert plan.fields == Rebuilt(episode, FlatContent(units, assets)).fields;
  }

  /** Whatever is stored is canonical. */
  lemma RebuiltIsCanonical(rules: Rules, episode: nat, units: seq<Json>, assets: seq<Json>)
    requires Normal(rules.durations, units, assets)
    ensures Canonical(rules.durations, episode, Rebuilt(episode, FlatContent(units, assets)))
  {
    var plan := Rebuilt(episode, FlatContent(units, assets));
    RebuiltUnits(episode, units, assets);
    DedupedIsDistinct(assets);
    forall i | 0 <= i < |units| ensures CanonicalUnit(rules.durations, UnitId(episode, i + 1), Units(plan)[i]) {
      ParsedIsCanonical(rules.durations, UnitId(episode, i + 1), units[i]);
    }
    forall i | 0 <= i < |assets| ensures CanonicalAsset(assets[i]) {
      CanonicalAssetIsParsed(assets[i]);
    }
  }

  lemma ParsedIsCanonical(durations: set<int>, id: string, flat: Json)
    requires ParsedUnit(durations, flat) == Some(flat)
    ensures CanonicalUnit(durations, id, StoredUnit(id, flat))
  {
  }

  /** Building and flattening again gives back the flat draft, new assets included. */
  lemma FlattenUndoesBuild(rules: Rules, episode: nat, units: seq<Json>, assets: seq<Json>)
    requires Normal(rules.durations, units, assets)
    ensures DraftShape(Rebuilt(episode, FlatContent(units, assets))) == Some(FlatContent(units, assets))
  {
    var content := FlatContent(units, assets);
    var plan := Rebuilt(episode, content);
    assert Units(content) == units && Units(plan) == Stored(episode, units);
    forall i | 0 <= i < |units| ensures AllFlattened(Units(plan))[i] == units[i] {
      ParsedUnitIsStable(rules.durations, units[i]);
      FlatIsRecovered(UnitId(episode, i + 1), units[i]);
    }
    assert AllFlattened(Units(plan)) == units;
    assert DraftShape(plan).value.fields == content.fields;
  }

  /** Taking a plan into a draft and promoting the draft untouched, when it is accepted, stores the
      same plan if and only if the plan is canonical. */
  lemma PromotionRestoresExactlyCanonicalPlans(rules: Rules, episode: nat, plan: Json)
    requires DraftShape(plan).Some? && Judge(rules, DraftShape(plan).value).Accepted?
    ensures Rebuilt(episode, Judge(rules, DraftShape(plan).value).content) == plan <==>
            Canonical(rules.durations, episode, plan)
  {
    var r := Revalidate(rules, DraftShape(plan).value);
    RevalidationIsNormal(rules, DraftShape(plan).value);
    RebuiltIsCanonical(rules, episode, r.units, r.newAssets);
    if Canonical(rules.durations, episode, plan) {
      var units, assets := CanonicalIsRebuilt(rules, episode, plan);
      FlattenUndoesBuild(rules, episode, units, assets);
      NormalContentIsStable(rules, units, assets);
    }
  }

  /** Whatever the stored plan looks like, a promotion of its untouched draft keeps every unit in its
      place with its text, source and duration; a malformed unit is reported, never dropped. */
  lemma NoUnitIsLost(rules: Rules, episode: nat, plan: Json)
    requires DraftShape(plan).Some? && Judge(rules, DraftShape(plan).value).Accepted?
    ensures var after := Rebuilt(episode, Judge(rules, DraftShape(plan).value).content);
            && HasUnits(after) && |Units(after)| == |Units(plan)|
            && forall i | 0 <= i < |Units(plan)| :: SameUnit(Units(plan)[i], Units(after)[i], UnitId(episode, i + 1))
  {
    var draft := DraftShape(plan).value;
    var r := Revalidate(rules, draft);
    RevalidationIsNormal(rules, draft);
    RebuiltUnits(episode, r.units, r.newAssets);
    forall i: nat | i < |Units(plan)|
      ensures SameUnit(Units(plan)[i], Stored(episode, r.units)[i], UnitId(episode, i + 1))
    {
      RevalidatedUnit(rules, draft, i);
      UnitIsKept(rules.durations, Units(plan)[i], r.units[i], UnitId(episode, i + 1));
    }
  }

  lemma RebuiltUnits(episode: nat, units: seq<Json>, assets: seq<Json>)
    requires units != []
    ensures var after := Rebuilt(episode, FlatContent(units, assets));
            HasUnits(after) && Units(after) == Stored(episode, units)
  {
    assert Units(FlatContent(units, assets)) == units;
  }

  lemma RevalidatedUnit(rules: Rules, content: Json, i: nat)
    requires Revalidate(rules, content).Flat? && i < |Units(content)|
    ensures var units := Revalidate(rules, content).units;
            i < |units| && ParsedUnit(rules.durations, Units(content)[i]) == Some(units[i])
  {
  }

  lemma UnitIsKept(durations: set<int>, unit: Json, parsed: Json, id: string)
    requires ParsedUnit(durations, Flattened(unit)) == Some(parsed)
    ensures SameUnit(unit, StoredUnit(id, parsed), id)
  {
  }

  ghost predicate SameUnit(before: Json, after: Json, id: string) {
    && before.Obj? && after.Obj?
    && {"text", "source_text", "duration_seconds"} <= before.fields.Keys
    && after.fields.Keys == {"unit_id", "text", "source_text", "duration_seconds"}
    && after.fields["unit_id"] == Str(id)
    && after.fields["text"] == before.fields["text"] && after.fields["source_text"] == before.fields["source_text"]
    && after.fields["duration_seconds"] == Coerced(before.fields["duration_seconds"])
  }

  /** The reference route of the draft protocol. */
  function ReferenceRoute(episode: nat): P.Route {
    P.Route(DraftShape, content => Rebuilt(episode, content))
  }

  /** In the protocol: open, then promote the untouched draft. If it is adopted, the formal plan is
      unchanged exactly when it is canonical, and the draft is gone. */
  lemma OpenThenPromote(rules: Rules, episode: nat, s: P.State, source: Option<string>)
    requires s.draft == P.Absent && s.promoting.None? && !P.Confirmed(s)
    requires s.formal.Some? && s.formal.value.Parsed? && HasUnits(s.formal.value.json)
    ensures var route := ReferenceRoute(episode);
            var taken := P.Perform(route, s, P.Open(source, true));
            && taken.1.Returned?
            && var begun := P.Perform(route, taken.0, P.PromoteBegin(taken.1.draft));
               var done := P.Perform(route, begun.0, P.PromoteEnd(Judge(rules, taken.1.draft.content)));
               && (done.1 == P.Adopted <==> Judge(rules, DraftShape(s.formal.value.json).value).Accepted?)
               && (done.1 != P.Adopted ==> done.0.formal == s.formal && done.0.draft.Readable?)
               && (done.1 == P.Adopted ==>
                     && done.0.draft == P.Absent
                     && (done.0.formal == s.formal <==> Canonical(rules.durations, episode, s.formal.value.json)))
  {
    var plan := s.formal.value.json;
    P.UntouchedPromotion(ReferenceRoute(episode), s, source, Judge(rules, DraftShape(plan).value));
    if Judge(rules, DraftShape(plan).value).Accepted? {
      PromotionRestoresExactlyCanonicalPlans(rules, episode, plan);
    }
  }
}
