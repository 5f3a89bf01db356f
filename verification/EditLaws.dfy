/** What an edit operation does to a script, said without the functions that carry it out
    (lib/script/script_editor.py): which values can be read afterwards, which items stay, and in which order. */
module EditLaws {
  import opened ScriptEditor
  import opened DerivedMarkers
  import opened PatchCompiler

  // ----- Reading a nested field -----

  /** The value at a path, None when there is no such field. */
  function GetPath(obj: Item, parts: seq<string>): Option<Json>
    requires parts != []
    decreases |parts|
  {
    if parts[0] !in obj then None
    else if |parts| == 1 then Some(obj[parts[0]])
    else if obj[parts[0]].Obj? then GetPath(obj[parts[0]].fields, parts[1..])
    else None
  }

  /** One of the paths leads into the other. */
  predicate Related(a: seq<string>, b: seq<string>) {
    a <= b || b <= a
  }

  lemma RelatedTails(a: seq<string>, b: seq<string>)
    requires a != [] && b != [] && a[0] == b[0]
    ensures Related(a, b) <==> Related(a[1..], b[1..])
  {
    assert a == [a[0]] + a[1..] && b == [b[0]] + b[1..];
  }

  /** What was set can be read. */
  lemma {:induction false} SetPathReads(obj: Item, parts: seq<string>, value: Json)
    requires parts != []
    ensures SetPath(obj, parts, value).Some? ==> GetPath(SetPath(obj, parts, value).value, parts) == Some(value)
    decreases |parts|
  {
    if |parts| > 1 && SetPath(obj, parts, value).Some? {
      SetPathReads(obj[parts[0]].fields, parts[1..], value);
    }
  }

  /** Paths that lead neither into the one that was set nor to it read as before. */
  lemma {:induction false} SetPathKeeps(obj: Item, parts: seq<string>, value: Json, other: seq<string>)
    requires parts != [] && other != [] && !Related(parts, other)
    ensures SetPath(obj, parts, value).Some? ==>
      GetPath(SetPath(obj, parts, value).value, other) == GetPath(obj, other)
    decreases |parts|
  {
    if SetPath(obj, parts, value).Some? && parts[0] == other[0] {
      RelatedTails(parts, other);
      SetPathKeeps(obj[parts[0]].fields, parts[1..], value, other[1..]);
    }
  }

  /** Every parent on the path is an object. */
  ghost predicate ParentsAreObjects(obj: Item, parts: seq<string>) {
    forall n | 1 <= n < |parts| :: IsObject(GetPath(obj, parts[..n]))
  }

  predicate IsObject(value: Option<Json>) {
    value.Some? && value.value.Obj?
  }

  /** A path can be set if and only if its parents are there; the leaf itself may be missing. */
  lemma {:induction false} SetPathPossibleIff(obj: Item, parts: seq<string>, value: Json)
    requires parts != []
    ensures SetPath(obj, parts, value).Some? <==> ParentsAreObjects(obj, parts)
    decreases |parts|
  {
    if |parts| > 1 {
      assert GetPath(obj, parts[..1]) == if parts[0] in obj then Some(obj[parts[0]]) else None;
      if parts[0] in obj && obj[parts[0]].Obj? {
        var inner, rest := obj[parts[0]].fields, parts[1..];
        SetPathPossibleIff(inner, rest, value);
        forall n | 2 <= n < |parts| ensures GetPath(obj, parts[..n]) == GetPath(inner, rest[..n - 1]) {
          assert parts[..n][1..] == rest[..n - 1];
        }
        ParentsBelow(obj, parts, inner);
      }
    }
  }

  lemma ParentsBelow(obj: Item, parts: seq<string>, inner: Item)
    requires |parts| > 1 && IsObject(GetPath(obj, parts[..1]))
    requires forall n | 2 <= n < |parts| :: GetPath(obj, parts[..n]) == GetPath(inner, parts[1..][..n - 1])
    ensures ParentsAreObjects(obj, parts) <==> ParentsAreObjects(inner, parts[1..])
  {
    if ParentsAreObjects(obj, parts) {
      forall n | 1 <= n < |parts| - 1 ensures IsObject(GetPath(inner, parts[1..][..n])) {
        assert IsObject(GetPath(obj, parts[..n + 1]));
      }
    }
    if ParentsAreObjects(inner, parts[1..]) {
      forall n | 1 <= n < |parts| ensures IsObject(GetPath(obj, parts[..n])) {
        if n > 1 { assert IsObject(GetPath(inner, parts[1..][..n - 1])); }
      }
    }
  }

  // ----- Updates -----

  /** No later field is set at, above or below the path of field `i`. */
  ghost predicate HasLastWord(fields: seq<Field>, i: nat)
    requires i < |fields|
  {
    forall j | i < j < |fields| :: !Related(fields[j].parts, fields[i].parts)
  }

  ghost predicate Unnamed(fields: seq<Field>, path: seq<string>) {
    forall j | 0 <= j < |fields| :: !Related(fields[j].parts, path)
  }

  /** Every named path reads as the last value given for it, every other path as before. */
  ghost predicate Updated(before: Item, after: Item, fields: seq<Field>) {
    && (forall i | 0 <= i < |fields| && HasLastWord(fields, i) :: Reads(after, fields[i]))
    && forall path: seq<string> | path != [] && Unnamed(fields, path) :: GetPath(after, path) == GetPath(before, path)
  }

  predicate Reads(item: Item, field: Field) {
    field.parts != [] && GetPath(item, field.parts) == Some(field.value)
  }

  lemma {:induction false} FieldsAreUpdated(item: Item, fields: seq<Field>, unit: string)
    requires SetFields(item, fields, unit).Done?
    ensures Updated(item, SetFields(item, fields, unit).value, fields)
    decreases |fields|
  {
    if fields != [] {
      var parts, value, rest := fields[0].parts, fields[0].value, fields[1..];
      var next := SetPath(item, parts, value).value;
      var after := SetFields(item, fields, unit).value;
      FieldsAreUpdated(next, rest, unit);
      SetPathReads(item, parts, value);
      forall i | 0 <= i < |fields| && HasLastWord(fields, i) ensures Reads(after, fields[i]) {
        if i > 0 {
          LaterWord(fields, i);
        } else {
          assert Unnamed(rest, parts);
        }
      }
      forall path: seq<string> | path != [] && Unnamed(fields, path)
        ensures GetPath(after, path) == GetPath(item, path)
      {
        assert !Related(fields[0].parts, path);
        SetPathKeeps(item, parts, value, path);
        assert Unnamed(rest, path);
      }
    }
  }

  lemma LaterWord(fields: seq<Field>, i: nat)
    requires 0 < i < |fields| && HasLastWord(fields, i)
    ensures HasLastWord(fields[1..], i - 1) && fields[1..][i - 1] == fields[i]
  {
    forall j | i - 1 < j < |fields| - 1 ensures !Related(fields[1..][j].parts, fields[1..][i - 1].parts) {
      assert fields[1..][j] == fields[j + 1];
    }
  }

  /** The field may be set and its parents are there. */
  ghost predicate CanBeSet(item: Item, field: Field) {
    Settable(field.parts, field.value) && ParentsAreObjects(item, field.parts)
  }

  /** The location points at a field by its path. */
  predicate Locates(location: seq<Step>, parts: seq<string>) {
    && |location| == |parts| + 1 && location[0] == Key("fields")
    && forall i | 0 <= i < |parts| :: location[i + 1] == Key(parts[i])
  }

  /** The fields before the i-th can be set one after the other, with `before` as the result. */
  ghost predicate SetUpTo(item: Item, fields: seq<Field>, unit: string, i: nat, before: Item)
    requires i <= |fields|
  {
    SetFields(item, fields[..i], unit) == Done(before)
  }

  /** A rejected update names the first field that cannot be set after the fields before it. */
  lemma {:induction false} RejectedFieldCannotBeSet(item: Item, fields: seq<Field>, unit: string)
    returns (i: nat, before: Item)
    requires SetFields(item, fields, unit).Rejected?
    ensures i < |fields| && SetUpTo(item, fields, unit, i, before) && !CanBeSet(before, fields[i])
    ensures SetFields(item, fields, unit) == Rejected(FieldLocation(fields[i].parts), Some(unit))
    ensures Locates(FieldLocation(fields[i].parts), fields[i].parts)
    decreases |fields|
  {
    if SetNested(item, fields[0].parts, fields[0].value).None? {
      i, before := 0, item;
      assert fields[..0] == [];
      if Settable(fields[0].parts, fields[0].value) {
        SetPathPossibleIff(item, fields[0].parts, fields[0].value);
      }
    } else {
      var next := SetPath(item, fields[0].parts, fields[0].value).value;
      i, before := RejectedFieldCannotBeSet(next, fields[1..], unit);
      i := i + 1;
      assert fields[..i][1..] == fields[1..][..i - 1];
    }
  }

  /** In an accepted update every field can be set after the fields before it. */
  lemma {:induction false} AcceptedFieldCanBeSet(item: Item, fields: seq<Field>, unit: string, i: nat)
    returns (before: Item)
    requires SetFields(item, fields, unit).Done? && i < |fields|
    ensures SetUpTo(item, fields, unit, i, before) && CanBeSet(before, fields[i])
    decreases |fields|
  {
    if i == 0 {
      before := item;
      assert fields[..0] == [];
      SetPathPossibleIff(item, fields[0].parts, fields[0].value);
    } else {
      var next := SetPath(item, fields[0].parts, fields[0].value).value;
      before := AcceptedFieldCanBeSet(next, fields[1..], unit, i - 1);
      assert fields[..i][1..] == fields[1..][..i - 1];
    }
  }

  predicate SameAt(a: Item, b: Item, key: string) {
    (key in a <==> key in b) && (key in a ==> a[key] == b[key])
  }

  /** Ids, media and derived markers. */
  const PROTECTED := {
    "generated_assets", "end_frame_image", "needs_replan", "pending_authoring",
    "segment_id", "scene_id", "unit_id", "shot_id"}

  /** Protected fields are out of reach of an update. */
  lemma {:induction false} UpdateKeepsProtected(item: Item, fields: seq<Field>, unit: string, key: string)
    requires SetFields(item, fields, unit).Done? && key in PROTECTED
    ensures SameAt(SetFields(item, fields, unit).value, item, key)
    decreases |fields|
  {
    if fields != [] {
      var next := SetPath(item, fields[0].parts, fields[0].value).value;
      assert fields[0].parts[0] != key;
      UpdateKeepsProtected(next, fields[1..], unit, key);
    }
  }

  /** No update clears a prompt to null. */
  lemma {:induction false} UpdateClearsNoPrompt(item: Item, fields: seq<Field>, unit: string, key: string)
    requires SetFields(item, fields, unit).Done? && (key == "image_prompt" || key == "video_prompt")
    requires GetPath(SetFields(item, fields, unit).value, [key]) == Some(Null)
    ensures GetPath(item, [key]) == Some(Null)
    decreases |fields|
  {
    if fields != [] {
      var next := SetPath(item, fields[0].parts, fields[0].value).value;
      UpdateClearsNoPrompt(next, fields[1..], unit, key);
    }
  }

  /** Anything else may be set. */
  lemma OtherFieldsAreSettable(parts: seq<string>, value: Json)
    requires parts != [] && (forall p <- parts :: p != "") && parts[0] !in PROTECTED
    requires value != Null || |parts| > 1 || (parts[0] != "image_prompt" && parts[0] != "video_prompt")
    ensures Settable(parts, value)
  {
  }

  /** What an accepted update makes of the script: one item is updated, everything else stays. */
  lemma UpdateLaw(p: Script, id: string, fields: seq<Field>) returns (at: nat)
    requires ApplyOp(p, Update(id, fields)).Done? && fields != []
    ensures var r := ApplyOp(p, Update(id, fields)).value;
      && at < |p.items| && IdsOf(p)[at] == id && (forall j | 0 <= j < at :: IdsOf(p)[j] != id)
      && r == p.(items := r.items) && |r.items| == |p.items|
      && (forall j | 0 <= j < |p.items| && j != at :: r.items[j] == p.items[j])
      && Updated(p.items[at], r.items[at], fields)
  {
    at := Find(IdsOf(p), id);
    FieldsAreUpdated(p.items[at], fields, id);
  }

  // ----- Insertions -----

  /** The item as the caller gave it, but for its id and its media. */
  ghost predicate AsGiven(idField: string, after: Item, given: Item) {
    forall key | key !in {idField, "generated_assets", "end_frame_image"} :: SameAt(after, given, key)
  }

  predicate WithoutMedia(item: Item) {
    "generated_assets" in item && item["generated_assets"] == Obj(map[]) && "end_frame_image" !in item
  }

  /** Position `at` directly follows the anchor, or is the first one without an anchor. */
  predicate Follows(ids: seq<string>, at: nat, afterId: Option<string>) {
    match afterId
    case None => at == 0
    case Some(a) => 0 < at <= |ids| && ids[at - 1] == a
  }

  /** An insertion puts the given item, with an id of its own and without media, behind its anchor. */
  lemma InsertLaw(p: Script, afterId: Option<string>, item: Item)
    requires WellFormed(p)
    ensures var result := ApplyOp(p, Insert(afterId, item));
      && (result.Done? <==> afterId.Some? ==> afterId.value in IdsOf(p))
      && (result.Rejected? ==> result == Rejected([Key("after_id")], afterId))
      && (result.Done? ==> exists at | 0 <= at <= |p.items| ::
            && Follows(IdsOf(p), at, afterId) && Inserts(p, result.value, at, item))
  {
    AnchorFoundIff(IdsOf(p), afterId);
    if ApplyOp(p, Insert(afterId, item)).Done? {
      var at := AnchorAt(IdsOf(p), afterId).value;
      FreshInserts(p, at, item);
      assert Follows(IdsOf(p), at, afterId) && Inserts(p, ApplyOp(p, Insert(afterId, item)).value, at, item);
    }
  }

  lemma AnchorFoundIff(ids: seq<string>, afterId: Option<string>)
    ensures AnchorAt(ids, afterId).Some? <==> (afterId.Some? ==> afterId.value in ids)
    ensures AnchorAt(ids, afterId).Some? ==> Follows(ids, AnchorAt(ids, afterId).value, afterId)
  {
  }

  lemma FreshIsAsGiven(idField: string, item: Item, id: string)
    requires idField in ID_FIELDS
    ensures var r := FreshItem(idField, item, id);
      HasId(idField, r) && IdOf(idField, r) == id && WithoutMedia(r) && AsGiven(idField, r, item)
  {
  }

  lemma FreshInserts(p: Script, at: nat, item: Item)
    requires WellFormed(p) && at <= |p.items|
    ensures Inserts(p, WithItems(p, InsertAt(p.items, at, FreshItem(p.idField, item, NewItemId(p)))), at, item)
  {
    FreshIsAsGiven(p.idField, item, NewItemId(p));
    AroundInserted(p.items, at, FreshItem(p.idField, item, NewItemId(p)));
  }

  lemma AroundInserted(items: seq<Item>, at: nat, item: Item)
    requires at <= |items|
    ensures var r := InsertAt(items, at, item);
      |r| == |items| + 1 && r[..at] == items[..at] && r[at] == item && r[at + 1..] == items[at..]
  {
  }

  ghost predicate Inserts(p: Script, r: Script, at: nat, given: Item) {
    && at <= |p.items| && |r.items| == |p.items| + 1 && r == p.(items := r.items)
    && r.items[..at] == p.items[..at] && r.items[at + 1..] == p.items[at..]
    && HasId(p.idField, r.items[at]) && IdOf(p.idField, r.items[at]) !in IdsOf(p)
    && WithoutMedia(r.items[at]) && AsGiven(p.idField, r.items[at], given)
  }

  // ----- Moves and removals -----

  /** The items with another id, in their order. */
  function Others(idField: string, items: seq<Item>, id: string): seq<Item> {
    if items == [] then []
    else (if IdOf(idField, items[0]) == id then [] else [items[0]]) + Others(idField, items[1..], id)
  }

  lemma {:induction false} OthersOfConcat(idField: string, a: seq<Item>, b: seq<Item>, id: string)
    ensures Others(idField, a + b, id) == Others(idField, a, id) + Others(idField, b, id)
  {
    if a == [] {
      assert a + b == b;
    } else {
      assert (a + b)[1..] == a[1..] + b;
      OthersOfConcat(idField, a[1..], b, id);
      Regroup(if IdOf(idField, a[0]) == id then [] else [a[0]], Others(idField, a[1..], id), Others(idField, b, id));
    }
  }

  lemma Regroup(a: seq<Item>, b: seq<Item>, c: seq<Item>)
    ensures a + (b + c) == (a + b) + c
  {
  }

  lemma OthersOfOne(idField: string, item: Item)
    ensures Others(idField, [item], IdOf(idField, item)) == []
  {
    assert [item][1..] == [];
  }

  lemma NotAmong(idField: string, a: seq<Item>, c: seq<Item>, id: string)
    requires id !in Ids(idField, a + c)
    ensures id !in Ids(idField, a) && id !in Ids(idField, c)
  {
    forall i | 0 <= i < |a| ensures Ids(idField, a)[i] != id { assert Ids(idField, a + c)[i] != id; }
    forall i | 0 <= i < |c| ensures Ids(idField, c)[i] != id { assert Ids(idField, a + c)[|a| + i] != id; }
  }

  lemma {:induction false} AllOthers(idField: string, items: seq<Item>, id: string)
    requires id !in Ids(idField, items)
    ensures Others(idField, items, id) == items
  {
    if items != [] {
      assert Ids(idField, items)[0] != id;
      assert forall i | 0 <= i < |items| - 1 :: Ids(idField, items[1..])[i] == Ids(idField, items)[i + 1];
      AllOthers(idField, items[1..], id);
    }
  }

  /** Around the one item with an id, all others. */
  lemma OthersAround(idField: string, a: seq<Item>, item: Item, c: seq<Item>)
    requires IdOf(idField, item) !in Ids(idField, a + c)
    ensures Others(idField, a + [item] + c, IdOf(idField, item)) == a + c
  {
    var id := IdOf(idField, item);
    NotAmong(idField, a, c, id);
    AllOthers(idField, c, id);
    OthersBefore(idField, a, item);
    OthersOfConcat(idField, a + [item], c, id);
  }

  lemma OthersBefore(idField: string, a: seq<Item>, item: Item)
    requires IdOf(idField, item) !in Ids(idField, a)
    ensures Others(idField, a + [item], IdOf(idField, item)) == a
  {
    AllOthers(idField, a, IdOf(idField, item));
    OthersOfConcat(idField, a, [item], IdOf(idField, item));
    OthersOfOne(idField, item);
  }

  lemma OthersAreTheRest(p: Script, at: nat)
    requires WellFormed(p) && at < |p.items|
    ensures Others(p.idField, p.items, IdsOf(p)[at]) == RemoveAt(p.items, at)
    ensures IdsOf(p)[at] !in Ids(p.idField, RemoveAt(p.items, at))
  {
    RemoveKeepsWellFormed(p, at);
    assert p.items == p.items[..at] + [p.items[at]] + p.items[at + 1..];
    OthersAround(p.idField, p.items[..at], p.items[at], p.items[at + 1..]);
  }

  /** A removal takes the item out and leaves the others in their order. */
  lemma RemoveLaw(p: Script, id: string)
    requires WellFormed(p)
    ensures var result := ApplyOp(p, Remove(id));
      && (result.Done? <==> id in IdsOf(p))
      && (result.Rejected? ==> result == Rejected([Key("id")], Some(id)))
      && (result.Done? ==> result.value == p.(items := Others(p.idField, p.items, id)))
  {
    var at := Find(IdsOf(p), id);
    if at < |p.items| { OthersAreTheRest(p, at); }
  }

  /** `r` is `p` with the item `id`, unchanged, behind its anchor, and the others in their order. */
  ghost predicate Moves(p: Script, r: Script, id: string, afterId: Option<string>) {
    && r == p.(items := r.items) && Others(p.idField, r.items, id) == Others(p.idField, p.items, id)
    && exists from, to | 0 <= from < |p.items| && 0 <= to < |r.items| ::
         IdsOf(p)[from] == id && r.items[to] == p.items[from] && Follows(IdsOf(r), to, afterId)
  }

  lemma MoveLaw(p: Script, id: string, afterId: Option<string>)
    requires WellFormed(p)
    ensures var result := ApplyOp(p, Move(id, afterId));
      && (result.Done? <==>
          id in IdsOf(p) && afterId != Some(id) && (afterId.Some? ==> afterId.value in IdsOf(p)))
      && (result.Rejected? ==> result == Rejected([Key(if id in IdsOf(p) then "after_id" else "id")], Some(id)))
      && (result.Done? ==> |result.value.items| == |p.items| && Moves(p, result.value, id, afterId))
  {
    var at := Find(IdsOf(p), id);
    if at < |p.items| && afterId != Some(id) {
      var rest := RemoveAt(p.items, at);
      OthersAreTheRest(p, at);
      AnchorStays(p, at, afterId);
      if ApplyOp(p, Move(id, afterId)).Done? {
        MovedIsBehindAnchor(p, at, afterId, AnchorAt(Ids(p.idField, rest), afterId).value);
      }
    }
  }

  /** Taking an item out leaves every other anchor there. */
  lemma AnchorStays(p: Script, at: nat, afterId: Option<string>)
    requires at < |p.items| && afterId != Some(IdsOf(p)[at])
    ensures AnchorAt(Ids(p.idField, RemoveAt(p.items, at)), afterId).Some? <==>
            (afterId.Some? ==> afterId.value in IdsOf(p))
  {
    if afterId.Some? {
      var rest := Ids(p.idField, RemoveAt(p.items, at));
      IdsOfRemove(p.idField, p.items, at);
      if afterId.value in IdsOf(p) {
        var j :| 0 <= j < |p.items| && IdsOf(p)[j] == afterId.value;
        assert rest[if j < at then j else j - 1] == afterId.value;
      }
    }
  }

  lemma MovedIsBehindAnchor(p: Script, at: nat, afterId: Option<string>, to: nat)
    requires WellFormed(p) && at < |p.items|
    requires AnchorAt(Ids(p.idField, RemoveAt(p.items, at)), afterId) == Some(to)
    ensures var r := WithItems(p, InsertAt(RemoveAt(p.items, at), to, p.items[at]));
      Moves(p, r, IdsOf(p)[at], afterId)
  {
    var r := WithItems(p, InsertAt(RemoveAt(p.items, at), to, p.items[at]));
    OthersOfMoved(p, at, to);
    MovedFollows(p, at, afterId, to);
    assert r.items[to] == p.items[at] && Follows(IdsOf(r), to, afterId);
  }

  lemma OthersOfMoved(p: Script, at: nat, to: nat)
    requires WellFormed(p) && at < |p.items| && to < |p.items|
    ensures Others(p.idField, InsertAt(RemoveAt(p.items, at), to, p.items[at]), IdsOf(p)[at]) ==
            Others(p.idField, p.items, IdsOf(p)[at])
  {
    var rest := RemoveAt(p.items, at);
    OthersAreTheRest(p, at);
    assert rest[..to] + rest[to..] == rest;
    OthersAround(p.idField, rest[..to], p.items[at], rest[to..]);
  }

  lemma MovedFollows(p: Script, at: nat, afterId: Option<string>, to: nat)
    requires at < |p.items| && AnchorAt(Ids(p.idField, RemoveAt(p.items, at)), afterId) == Some(to)
    ensures Follows(Ids(p.idField, InsertAt(RemoveAt(p.items, at), to, p.items[at])), to, afterId)
  {
    IdsOfInsert(p.idField, RemoveAt(p.items, at), to, p.items[at]);
  }

  // ----- Splits -----

  /** The first part of a split continues the item: its id and its media, the part's own fields. */
  ghost predicate Continues(idField: string, after: Item, item: Item, given: Item) {
    && AsGiven(idField, after, given) && HasId(idField, after) && IdOf(idField, after) == IdOf(idField, item)
    && "generated_assets" in after
    && after["generated_assets"] ==
       (if "generated_assets" in item && item["generated_assets"].Obj? then item["generated_assets"] else Obj(map[]))
    && ("end_frame_image" in after <==> "end_frame_image" in item && item["end_frame_image"] != Null)
    && ("end_frame_image" in after ==> after["end_frame_image"] == item["end_frame_image"])
  }

  /** `r` is `p` with the parts in the place of the item at `at`, the further ones as new items. */
  ghost predicate SplitsAt(p: Script, r: Script, at: nat, parts: seq<Item>) {
    && at < |p.items| && parts != [] && |r.items| == |p.items| - 1 + |parts| && r == p.(items := r.items)
    && r.items[..at] == p.items[..at] && r.items[at + |parts|..] == p.items[at + 1..]
    && Continues(p.idField, r.items[at], p.items[at], parts[0])
    && forall i | 1 <= i < |parts| ::
         IsNewPart(p, r.items[at + i], parts[i])
  }

  ghost predicate IsNewPart(p: Script, after: Item, given: Item) {
    && HasId(p.idField, after) && IdOf(p.idField, after) !in IdsOf(p)
    && WithoutMedia(after) && AsGiven(p.idField, after, given)
  }

  lemma SplitLaw(p: Script, id: string, parts: seq<Item>)
    requires WellFormed(p)
    ensures var result := ApplyOp(p, Split(id, parts));
      && (result.Done? <==> id in IdsOf(p) && |parts| >= 2)
      && (result.Rejected? ==> result == Rejected([Key(if id in IdsOf(p) then "parts" else "id")], Some(id)))
      && (result.Done? ==> WellFormed(result.value) && exists at | 0 <= at < |p.items| ::
            IdsOf(p)[at] == id && SplitsAt(p, result.value, at, parts))
  {
    var at := Find(IdsOf(p), id);
    if at < |p.items| && |parts| >= 2 {
      ApplyKeepsWellFormed(p, Split(id, parts));
      PartsAreAsGiven(p, at, parts);
    }
  }

  lemma PartsAreAsGiven(p: Script, at: nat, parts: seq<Item>)
    requires WellFormed(p) && at < |p.items| && |parts| >= 1
    ensures SplitsAt(p, WithItems(p, p.items[..at] + SplitParts(p, at, parts) + p.items[at + 1..]), at, parts)
  {
    var block := SplitParts(p, at, parts);
    var r := p.items[..at] + block + p.items[at + 1..];
    PartsAreNew(p, at, parts);
    forall i | 1 <= i < |parts| ensures IsNewPart(p, r[at + i], parts[i]) {
      assert r[at + i] == block[i];
      PartIsAsGiven(p, at, parts, i);
    }
  }

  lemma PartIsAsGiven(p: Script, at: nat, parts: seq<Item>, i: nat)
    requires WellFormed(p) && at < |p.items| && 1 <= i < |parts|
    ensures IsNewPart(p, SplitParts(p, at, parts)[i], parts[i])
  {
    var block := SplitParts(p, at, parts);
    PartsAreNew(p, at, parts);
    FurtherPartsAreAsGiven(p.idField, IdsOf(p)[at], parts[1..], Taken(IdsOf(p)));
    assert block[i] == FurtherParts(p.idField, IdsOf(p)[at], parts[1..], Taken(IdsOf(p)))[i - 1];
    assert AsGiven(p.idField, block[i], parts[1..][i - 1]);
    assert Ids(p.idField, block)[i] != Ids(p.idField, block)[0];
    NotTaken(p, at, IdOf(p.idField, block[i]));
  }

  lemma NotTaken(p: Script, at: nat, id: string)
    requires at < |p.items| && id != IdsOf(p)[at] && id !in Ids(p.idField, RemoveAt(p.items, at))
    ensures id !in IdsOf(p)
  {
    IdsOfRemove(p.idField, p.items, at);
    forall i | 0 <= i < |p.items| ensures IdsOf(p)[i] != id {
      if i != at { assert RemoveAt(IdsOf(p), at)[if i < at then i else i - 1] == IdsOf(p)[i]; }
    }
  }

  lemma {:induction false} FurtherPartsAreAsGiven(idField: string, base: string, parts: seq<Item>, taken: set<string>)
    ensures var r := FurtherParts(idField, base, parts, taken);
      forall i | 0 <= i < |parts| :: AsGiven(idField, r[i], parts[i])
    decreases |parts|
  {
    if parts != [] {
      var id := NextSuffixedId(base, taken);
      var r := FurtherParts(idField, base, parts, taken);
      FurtherPartsAreAsGiven(idField, base, parts[1..], taken + {id});
      assert AsGiven(idField, FreshItem(idField, parts[0], id), parts[0]);
      forall i | 1 <= i < |parts| ensures AsGiven(idField, r[i], parts[i]) {
        assert r[i] == FurtherParts(idField, base, parts[1..], taken + {id})[i - 1];
        assert parts[1..][i - 1] == parts[i];
      }
    }
  }

  // ----- Commands of the batch editor -----

  /** The media of an inserted item: those of the removed item it replaces, or none. */
  ghost predicate HasMediaOf(item: Item, source: Option<Item>) {
    match source
    case None => WithoutMedia(item)
    case Some(from) =>
      && "generated_assets" in item
      && item["generated_assets"] ==
         (if "generated_assets" in from && from["generated_assets"].Obj? then from["generated_assets"] else Obj(map[]))
      && ("end_frame_image" in item <==> "end_frame_image" in from && from["end_frame_image"] != Null)
      && ("end_frame_image" in item ==> item["end_frame_image"] == from["end_frame_image"])
  }

  /** Everything but media and markers is as the caller gave it. */
  ghost predicate PlacedAsGiven(after: Item, given: Item) {
    forall key | key !in {"generated_assets", "end_frame_image", "pending_authoring", "needs_replan"} ::
      SameAt(after, given, key)
  }

  ghost predicate Places(s: State, r: State, at: nat, given: Item, source: Option<Item>) {
    && at <= |s.script.items| && |r.script.items| == |s.script.items| + 1
    && r.script == s.script.(items := r.script.items)
    && r.script.items[..at] == s.script.items[..at] && r.script.items[at + 1..] == s.script.items[at..]
    && HasMediaOf(r.script.items[at], source) && PlacedAsGiven(r.script.items[at], given)
  }

  /** An insert command needs an id of its own and its anchor. The item gets the media of the item with
      its id that this batch removed, unless it is new, and keeps what else the caller gave. */
  lemma InsertCommandLaw(rules: Rules, s: State, afterId: Option<string>, item: Item, anew: bool)
    requires s.script.idField in ID_FIELDS
    ensures var result := ApplyCommand(rules, s, Flagged(InsertAfter(afterId, item), anew));
      var id := IdOf(s.script.idField, item);
      && (result.Done? <==>
            && HasId(s.script.idField, item) && id != "" && id !in IdsOf(s.script)
            && (afterId.Some? ==> afterId.value in IdsOf(s.script)))
      && (result.Rejected? ==>
            if HasId(s.script.idField, item) && id != "" && id !in IdsOf(s.script)
            then result == Rejected([Key("after_id")], afterId)
            else result == Rejected([Key("item"), Key(s.script.idField)], Some(id)))
      && (result.Done? ==>
            && result.value.removed == s.removed - {id}
            && exists at | 0 <= at <= |s.script.items| ::
                 && Follows(IdsOf(s.script), at, afterId)
                 && Places(s, result.value, at, item,
                           if id in s.removed && !anew then Some(s.removed[id]) else None))
  {
    var idField, id := s.script.idField, IdOf(s.script.idField, item);
    AnchorFoundIff(IdsOf(s.script), afterId);
    var result := ApplyCommand(rules, s, Flagged(InsertAfter(afterId, item), anew));
    if result.Done? {
      var at := AnchorAt(IdsOf(s.script), afterId).value;
      var source := if id in s.removed && !anew then Some(s.removed[id]) else None;
      InsertedAsGiven(rules, idField, item, source);
      AroundInserted(s.script.items, at, Inserted(rules, idField, item, source));
      assert Follows(IdsOf(s.script), at, afterId) && Places(s, result.value, at, item, source);
    }
  }

  lemma InsertedAsGiven(rules: Rules, idField: string, item: Item, source: Option<Item>)
    ensures HasMediaOf(Inserted(rules, idField, item, source), source)
    ensures PlacedAsGiven(Inserted(rules, idField, item, source), item)
  {
    var placed := WithMediaOf(item, source);
    MediaAreGiven(item, source);
    OnlyMarkersDiffer(AfterInsert(rules, idField, placed), placed);
    MediaOfSame(AfterInsert(rules, idField, placed), placed, source);
  }

  lemma MediaAreGiven(item: Item, source: Option<Item>)
    ensures HasMediaOf(WithMediaOf(item, source), source) && PlacedAsGiven(WithMediaOf(item, source), item)
  {
  }

  lemma OnlyMarkersDiffer(after: Item, placed: Item)
    requires Core(after) == Core(placed)
    ensures forall key | key != "pending_authoring" && key != "needs_replan" :: SameAt(after, placed, key)
  {
    forall key | key != "pending_authoring" && key != "needs_replan" ensures SameAt(after, placed, key) {
      SameField(after, placed, key);
    }
  }

  lemma MediaOfSame(after: Item, placed: Item, source: Option<Item>)
    requires SameAt(after, placed, "generated_assets") && SameAt(after, placed, "end_frame_image")
    ensures HasMediaOf(after, source) <==> HasMediaOf(placed, source)
  {
  }

  /** A remove command takes the item out and remembers it for a later insertion of its id. */
  lemma RemoveCommandLaw(rules: Rules, s: State, id: string)
    requires WellFormed(s.script)
    ensures var result := ApplyCommand(rules, s, Flagged(RemoveCmd(id), false));
      && (result.Done? <==> id in IdsOf(s.script))
      && (result.Rejected? ==> result == Rejected([Key("id")], Some(id)))
      && (result.Done? ==>
            && result.value.script == s.script.(items := Others(s.script.idField, s.script.items, id))
            && exists at | 0 <= at < |s.script.items| ::
                 IdsOf(s.script)[at] == id && result.value.removed == s.removed[id := s.script.items[at]])
  {
    var at := Find(IdsOf(s.script), id);
    if at < |s.script.items| { OthersAreTheRest(s.script, at); }
  }

  /** A move command does what a move does. */
  lemma MoveCommandLaw(rules: Rules, s: State, id: string, afterId: Option<string>)
    requires WellFormed(s.script)
    ensures var result := ApplyCommand(rules, s, Flagged(MoveAfter(id, afterId), false));
      && (result.Done? <==>
          id in IdsOf(s.script) && afterId != Some(id) && (afterId.Some? ==> afterId.value in IdsOf(s.script)))
      && (result.Done? ==> result.value.removed == s.removed && Moves(s.script, result.value.script, id, afterId))
      && (result.Rejected? ==>
            var missing := afterId != Some(id) && id !in IdsOf(s.script);
            result == Rejected([Key(if missing then "id" else "after_id")], Some(id)))
  {
    MoveLaw(s.script, id, afterId);
    assert ApplyOp(s.script, Move(id, afterId)).Done? <==> MoveItem(s.script, id, afterId).Some?;
  }

  /** An update command sets the fields; beyond them it touches nothing but the markers. */
  lemma UpdateCommandLaw(rules: Rules, s: State, id: string, fields: seq<Field>)
    requires fields != []
    ensures var result := ApplyCommand(rules, s, Flagged(UpdateCmd(id, fields), false));
      && (result.Done? <==> ApplyOp(s.script, Update(id, fields)).Done?)
      && (result.Done? ==>
            && result.value.removed == s.removed
            && var edited := ApplyOp(s.script, Update(id, fields)).value;
               SameScript(result.value.script, edited))
  {
    var at := Find(IdsOf(s.script), id);
    if at < |s.script.items| && SetFields(s.script.items[at], fields, id).Done? {
      var item := SetFields(s.script.items[at], fields, id).value;
      assert Core(AfterUpdate(rules, s.script.idField, fields, s.script.items[at], item)) == Core(item);
    }
  }
}
