/** What replaying a whole operation list makes of every item, and when the final item list is the
    preview's to the letter (server/tool_runtime.py, lib/script/script_batch_edit.py). Which operations
    decide a marker, and how, can be read off the preview alone. */
module PatchOutcome {
  import opened ScriptEditor
  import opened DerivedMarkers
  import opened PatchCompiler
  import opened PatchExactness

  // ----- Decisions -----

  /** What the operations so far have decided about a marker of an item: nothing, on or off. */
  datatype Decision = Untouched | Decided(on: bool)

  datatype Decisions = Decisions(pending: Decision, replan: Decision)

  const UNDECIDED := Decisions(Untouched, Untouched)

  function Decide(item: Item, key: string, d: Decision): Item {
    if d.Untouched? then item else Marked(item, key, d.on)
  }

  /** The item with its markers as decided. */
  function Settle(item: Item, d: Decisions): (r: Item)
    ensures Core(r) == Core(item)
  {
    Decide(Decide(item, PENDING, d.pending), REPLAN, d.replan)
  }

  predicate CarriesDecision(item: Item, key: string, d: Decision) {
    d.Decided? ==> CarriesMarker(item, key, d.on)
  }

  /** The item already has its markers as they were last decided. */
  predicate Carries(item: Item, d: Decisions) {
    CarriesDecision(item, PENDING, d.pending) && CarriesDecision(item, REPLAN, d.replan)
  }

  /** An item that is created gets its pending marker decided, a video unit the other one, too. */
  function OnCreation(rules: Rules, idField: string, item: Item): Decisions {
    Decisions(Decided(!VisualComplete(idField, item)),
              if IsVideoUnit(idField) then Decided(Unplanned(rules, item)) else Untouched)
  }

  function AllOnCreation(rules: Rules, idField: string, items: seq<Item>): (r: seq<Decisions>)
    ensures |r| == |items| && forall i | 0 <= i < |items| :: r[i] == OnCreation(rules, idField, items[i])
  {
    seq(|items|, i requires 0 <= i < |items| => OnCreation(rules, idField, items[i]))
  }

  /** An update decides the pending marker when it completes the visual layer, and the other one when it
      names a planning field of a video unit or repairs the speech of another item. */
  function OnUpdate(
      rules: Rules, idField: string, fields: seq<Field>, before: Item, item: Item, d: Decisions): Decisions
  {
    Decisions(
      if AuthoringEnds(idField, fields, item) then Decided(false) else d.pending,
      if IsVideoUnit(idField) then
        if Roots(fields) * {"text", "duration_seconds"} != {} then Decided(Unplanned(rules, item)) else d.replan
      else if SpeechRepaired(rules, before, item) then Decided(false) else d.replan)
  }

  /** The decisions go where their items go. */
  function MovedDecisions(p: Script, id: string, afterId: Option<string>, ds: seq<Decisions>): seq<Decisions>
    requires |ds| == |p.items| && MoveItem(p, id, afterId).Some?
  {
    var at := Find(IdsOf(p), id);
    var to := AnchorAt(Ids(p.idField, RemoveAt(p.items, at)), afterId).value;
    InsertAt(RemoveAt(ds, at), to, ds[at])
  }

  /** The decisions about the items of `p`, after one more operation on `p`. */
  function Next(rules: Rules, p: Script, op: PatchOp, ds: seq<Decisions>): seq<Decisions>
    requires |ds| == |p.items| && ApplyOp(p, op).Done?
  {
    match op
    case Update(id, fields) =>
      var at := Find(IdsOf(p), id);
      if fields == [] then ds
      else
        var edited := SetFields(p.items[at], fields, id).value;
        ds[at := OnUpdate(rules, p.idField, fields, p.items[at], edited, ds[at])]
    case Insert(afterId, item) =>
      var entered := FreshItem(p.idField, item, NewItemId(p));
      InsertAt(ds, AnchorAt(IdsOf(p), afterId).value, OnCreation(rules, p.idField, entered))
    case Move(id, afterId) => MovedDecisions(p, id, afterId, ds)
    case Remove(id) => RemoveAt(ds, Find(IdsOf(p), id))
    case Split(id, parts) =>
      var at := Find(IdsOf(p), id);
      ds[..at] + AllOnCreation(rules, p.idField, SplitParts(p, at, parts)) + ds[at + 1..]
  }

  lemma NextFits(rules: Rules, p: Script, op: PatchOp, ds: seq<Decisions>)
    requires |ds| == |p.items| && ApplyOp(p, op).Done?
    ensures |Next(rules, p, op, ds)| == |ApplyOp(p, op).value.items|
  {
  }

  /** What the whole list decides about the items of its preview. */
  function Last(rules: Rules, p: Script, ops: seq<PatchOp>, ds: seq<Decisions>): (r: seq<Decisions>)
    requires |ds| == |p.items| && Preview(p, ops).Done?
    ensures |r| == |Preview(p, ops).value.items|
    decreases |ops|
  {
    if ops == [] then ds
    else
      NextFits(rules, p, ops[0], ds);
      Last(rules, ApplyOp(p, ops[0]).value, ops[1..], Next(rules, p, ops[0], ds))
  }

  function AllUndecided(n: nat): (r: seq<Decisions>)
    ensures |r| == n && forall i | 0 <= i < n :: r[i] == UNDECIDED
  {
    seq(n, _ => UNDECIDED)
  }

  // ----- Items and their decisions -----

  function SettleAll(items: seq<Item>, ds: seq<Decisions>): (r: seq<Item>)
    requires |ds| == |items|
    ensures |r| == |items| && forall i | 0 <= i < |items| :: r[i] == Settle(items[i], ds[i])
  {
    seq(|items|, i requires 0 <= i < |items| => Settle(items[i], ds[i]))
  }

  lemma SettleIsIdentityIff(item: Item, d: Decisions)
    ensures Settle(item, d) == item <==> Carries(item, d)
  {
    var pending := Decide(item, PENDING, d.pending);
    if d.pending.Decided? { MarkedIsIdentityIff(item, PENDING, d.pending.on); }
    if d.replan.Decided? {
      MarkedIsIdentityIff(item, REPLAN, d.replan.on);
      MarkersAreApart(pending, item, REPLAN, PENDING, d.replan.on);
    }
  }

  lemma SettleAllIsIdentityIff(items: seq<Item>, ds: seq<Decisions>)
    requires |ds| == |items|
    ensures SettleAll(items, ds) == items <==> forall i | 0 <= i < |items| :: Carries(items[i], ds[i])
  {
    forall i | 0 <= i < |items| ensures SettleAll(items, ds)[i] == items[i] <==> Carries(items[i], ds[i]) {
      SettleIsIdentityIff(items[i], ds[i]);
    }
  }

  lemma SettleAllKeepsCores(items: seq<Item>, ds: seq<Decisions>)
    requires |ds| == |items|
    ensures SameCores(SettleAll(items, ds), items)
  {
  }

  lemma SettleAllInsert(items: seq<Item>, ds: seq<Decisions>, at: nat, item: Item, d: Decisions)
    requires |ds| == |items| && at <= |items|
    ensures SettleAll(InsertAt(items, at, item), InsertAt(ds, at, d)) ==
            InsertAt(SettleAll(items, ds), at, Settle(item, d))
  {
  }

  lemma SettleAllRemove(items: seq<Item>, ds: seq<Decisions>, at: nat)
    requires |ds| == |items| && at < |items|
    ensures SettleAll(RemoveAt(items, at), RemoveAt(ds, at)) == RemoveAt(SettleAll(items, ds), at)
  {
  }

  lemma SettleAllReplace(
      items: seq<Item>, ds: seq<Decisions>, at: nat, block: seq<Item>, bs: seq<Decisions>)
    requires |ds| == |items| && at < |items| && |bs| == |block|
    ensures SettleAll(items[..at] + block + items[at + 1..], ds[..at] + bs + ds[at + 1..]) ==
            SettleAll(items, ds)[..at] + SettleAll(block, bs) + SettleAll(items, ds)[at + 1..]
  {
  }

  // ----- The editor follows the decisions -----

  lemma CreationIsDecided(rules: Rules, idField: string, item: Item)
    ensures AfterInsert(rules, idField, item) == Settle(item, OnCreation(rules, idField, item))
  {
    var pending := Marked(item, PENDING, !VisualComplete(idField, item));
    UnplannedIgnoresMarkers(rules, pending, item);
  }

  lemma CreationsAreDecided(rules: Rules, idField: string, items: seq<Item>)
    ensures Entered(rules, idField, items) == SettleAll(items, AllOnCreation(rules, idField, items))
  {
    forall i | 0 <= i < |items|
      ensures Entered(rules, idField, items)[i] == SettleAll(items, AllOnCreation(rules, idField, items))[i]
    {
      CreationIsDecided(rules, idField, items[i]);
    }
  }

  /** A later decision about a marker replaces an earlier one. */
  lemma LastDecisionCounts(item: Item, d: Decisions, pending: Decision, replan: Decision)
    ensures Decide(Decide(Settle(item, d), PENDING, pending), REPLAN, replan) ==
            Settle(item, Decisions(if pending.Decided? then pending else d.pending,
                                   if replan.Decided? then replan else d.replan))
  {
  }

  lemma UpdateIsDecided(
      rules: Rules, idField: string, fields: seq<Field>, before: Item, edited: Item, d: Decisions)
    ensures AfterUpdate(rules, idField, fields, Settle(before, d), Settle(edited, d)) ==
            Settle(edited, OnUpdate(rules, idField, fields, before, edited, d))
  {
    var settled := Settle(edited, d);
    AuthoringIgnoresMarkers(idField, fields, settled, edited);
    UnplannedIgnoresMarkers(rules, settled, edited);
    var now := OnUpdate(rules, idField, fields, before, edited, UNDECIDED);
    var authored := Decide(settled, PENDING, now.pending);
    UnplannedIgnoresMarkers(rules, authored, edited);
    LastDecisionCounts(edited, d, now.pending, now.replan);
  }

  lemma AuthoringIgnoresMarkers(idField: string, fields: seq<Field>, a: Item, b: Item)
    requires Core(a) == Core(b)
    ensures AuthoringEnds(idField, fields, a) == AuthoringEnds(idField, fields, b)
  {
    forall field | field in VisualLayer(idField)
      ensures field in a && Filled(a[field]) <==> field in b && Filled(b[field])
    {
      SameField(a, b, field);
    }
  }

  lemma SetOnMarked(item: Item, key: string, on: bool, field: string, value: Json)
    requires field != key
    ensures Marked(item, key, on)[field := value] == Marked(item[field := value], key, on)
    ensures field in Marked(item, key, on) <==> field in item
    ensures field in item ==> Marked(item, key, on)[field] == item[field]
  {
    assert (item - {key})[field := value] == item[field := value] - {key};
    assert item[key := Bool(true)][field := value] == item[field := value][key := Bool(true)];
  }

  lemma SetPathOnMarked(item: Item, key: string, on: bool, parts: seq<string>, value: Json)
    requires parts != [] && parts[0] != key
    ensures match SetPath(item, parts, value)
      case None => SetPath(Marked(item, key, on), parts, value).None?
      case Some(r) => SetPath(Marked(item, key, on), parts, value) == Some(Marked(r, key, on))
  {
    SetOnMarked(item, key, on, parts[0], value);
    if |parts| > 1 && SetPath(item, parts, value).Some? {
      SetOnMarked(item, key, on, parts[0], Obj(SetPath(item[parts[0]].fields, parts[1..], value).value));
    }
  }

  lemma {:induction false} SetFieldsOnMarked(item: Item, key: string, on: bool, fields: seq<Field>, unit: string)
    requires key == PENDING || key == REPLAN
    ensures match SetFields(item, fields, unit)
      case Rejected(_, _) => SetFields(Marked(item, key, on), fields, unit).Rejected?
      case Done(r) => SetFields(Marked(item, key, on), fields, unit) == Done(Marked(r, key, on))
    decreases |fields|
  {
    if fields != [] && Settable(fields[0].parts, fields[0].value) {
      SetPathOnMarked(item, key, on, fields[0].parts, fields[0].value);
      var r := SetPath(item, fields[0].parts, fields[0].value);
      if r.Some? { SetFieldsOnMarked(r.value, key, on, fields[1..], unit); }
    }
  }

  /** Setting fields and settling markers do not meet. */
  lemma SetFieldsOnSettled(item: Item, d: Decisions, fields: seq<Field>, unit: string)
    requires SetFields(item, fields, unit).Done?
    ensures SetFields(Settle(item, d), fields, unit) == Done(Settle(SetFields(item, fields, unit).value, d))
  {
    if d.pending.Decided? { SetFieldsOnMarked(item, PENDING, d.pending.on, fields, unit); }
    if d.replan.Decided? {
      SetFieldsOnMarked(Decide(item, PENDING, d.pending), REPLAN, d.replan.on, fields, unit);
    }
  }

  // ----- One operation -----

  /** The candidate is the preview with the markers as decided. */
  ghost predicate Follows(s: State, p: Script, ds: seq<Decisions>) {
    |ds| == |p.items| && s.script == WithItems(p, SettleAll(p.items, ds))
  }

  /** So it is after the commands of one more operation. */
  ghost predicate FollowsNext(rules: Rules, s: State, p: Script, ds: seq<Decisions>, op: PatchOp)
    requires |ds| == |p.items| && ApplyOp(p, op).Done?
  {
    var after := ApplyOp(p, op).value;
    var r := Replay(rules, s, Compile(p, op, after));
    r.Done? && Follows(r.value, after, Next(rules, p, op, ds))
  }

  lemma SameIdsWhenFollowing(s: State, p: Script, ds: seq<Decisions>)
    requires WellFormed(p) && Follows(s, p, ds)
    ensures SameScript(s.script, p) && IdsOf(s.script) == IdsOf(p)
  {
    SettleAllKeepsCores(p.items, ds);
    SameIds(p.idField, s.script.items, p.items);
  }

  lemma OperationFollows(rules: Rules, s: State, p: Script, ds: seq<Decisions>, op: PatchOp)
    requires WellFormed(p) && Follows(s, p, ds) && Admissible(op) && ApplyOp(p, op).Done?
    ensures FollowsNext(rules, s, p, ds, op)
  {
    match op
    case Update(id, fields) => UpdateFollows(rules, s, p, ds, id, fields);
    case Insert(afterId, item) => InsertFollows(rules, s, p, ds, afterId, item);
    case Move(id, afterId) => MoveFollows(rules, s, p, ds, id, afterId);
    case Remove(id) => RemoveFollows(rules, s, p, ds, id);
    case Split(id, parts) => SplitFollows(rules, s, p, ds, id, parts);
  }

  lemma UpdateFollows(rules: Rules, s: State, p: Script, ds: seq<Decisions>, id: string, fields: seq<Field>)
    requires WellFormed(p) && Follows(s, p, ds) && fields != [] && ApplyOp(p, Update(id, fields)).Done?
    ensures FollowsNext(rules, s, p, ds, Update(id, fields))
  {
    var at := Find(IdsOf(p), id);
    var edited := SetFields(p.items[at], fields, id).value;
    SameIdsWhenFollowing(s, p, ds);
    SetFieldsOnSettled(p.items[at], ds[at], fields, id);
    UpdateIsDecided(rules, p.idField, fields, p.items[at], edited, ds[at]);
    ReplayOfOne(rules, s, Flagged(UpdateCmd(id, fields), false));
    SettleAllUpdate(p.items, ds, at, edited, OnUpdate(rules, p.idField, fields, p.items[at], edited, ds[at]));
  }

  lemma SettleAllUpdate(items: seq<Item>, ds: seq<Decisions>, at: nat, item: Item, d: Decisions)
    requires |ds| == |items| && at < |items|
    ensures SettleAll(items[at := item], ds[at := d]) == SettleAll(items, ds)[at := Settle(item, d)]
  {
  }

  lemma InsertFollows(rules: Rules, s: State, p: Script, ds: seq<Decisions>, afterId: Option<string>, item: Item)
    requires WellFormed(p) && Follows(s, p, ds) && ApplyOp(p, Insert(afterId, item)).Done?
    ensures FollowsNext(rules, s, p, ds, Insert(afterId, item))
  {
    var at := AnchorAt(IdsOf(p), afterId).value;
    var entered := FreshItem(p.idField, item, NewItemId(p));
    SameIdsWhenFollowing(s, p, ds);
    InsertOpResult(rules, s, p, afterId, item);
    CreationIsDecided(rules, p.idField, entered);
    SettleAllInsert(p.items, ds, at, entered, OnCreation(rules, p.idField, entered));
  }

  lemma OneCommandFollows(rules: Rules, s: State, p: Script, ds: seq<Decisions>, op: PatchOp, f: Flagged)
    requires |ds| == |p.items| && ApplyOp(p, op).Done? && Compile(p, op, ApplyOp(p, op).value) == [f]
    requires var r := ApplyCommand(rules, s, f);
      r.Done? && Follows(r.value, ApplyOp(p, op).value, Next(rules, p, op, ds))
    ensures FollowsNext(rules, s, p, ds, op)
  {
    ReplayOfOne(rules, s, f);
  }

  lemma SettleAllMove(items: seq<Item>, ds: seq<Decisions>, at: nat, to: nat)
    requires |ds| == |items| && at < |items| && to < |items|
    ensures SettleAll(InsertAt(RemoveAt(items, at), to, items[at]), InsertAt(RemoveAt(ds, at), to, ds[at])) ==
            InsertAt(RemoveAt(SettleAll(items, ds), at), to, SettleAll(items, ds)[at])
  {
    SettleAllRemove(items, ds, at);
    SettleAllInsert(RemoveAt(items, at), RemoveAt(ds, at), to, items[at], ds[at]);
  }

  /** An item is moved from and to the same place, whatever the markers. */
  lemma SamePlaces(idField: string, items: seq<Item>, ds: seq<Decisions>, at: nat)
    requires |ds| == |items| && at < |items| && idField in ID_FIELDS
    ensures Ids(idField, SettleAll(items, ds)) == Ids(idField, items)
    ensures Ids(idField, RemoveAt(SettleAll(items, ds), at)) == Ids(idField, RemoveAt(items, at))
  {
    SettleAllKeepsCores(items, ds);
    SameIds(idField, SettleAll(items, ds), items);
    IdsOfRemove(idField, SettleAll(items, ds), at);
    IdsOfRemove(idField, items, at);
  }

  /** Markers travel with the item that is moved. */
  lemma MoveOnSettled(p: Script, ds: seq<Decisions>, id: string, afterId: Option<string>)
    requires WellFormed(p) && |ds| == |p.items| && MoveItem(p, id, afterId).Some?
    ensures var next := MoveItem(p, id, afterId).value; var moved := MovedDecisions(p, id, afterId, ds);
      && |moved| == |next.items|
      && MoveItem(WithItems(p, SettleAll(p.items, ds)), id, afterId) ==
         Some(WithItems(next, SettleAll(next.items, moved)))
  {
    var at := Find(IdsOf(p), id);
    var to := AnchorAt(Ids(p.idField, RemoveAt(p.items, at)), afterId).value;
    SamePlaces(p.idField, p.items, ds, at);
    SettleAllMove(p.items, ds, at, to);
  }

  lemma MoveFollows(rules: Rules, s: State, p: Script, ds: seq<Decisions>, id: string, afterId: Option<string>)
    requires WellFormed(p) && Follows(s, p, ds) && ApplyOp(p, Move(id, afterId)).Done?
    ensures FollowsNext(rules, s, p, ds, Move(id, afterId))
  {
    MoveOnSettled(p, ds, id, afterId);
    var next := MoveItem(p, id, afterId).value;
    MoveCommandFollows(rules, s, next, MovedDecisions(p, id, afterId, ds), id, afterId);
    OneCommandFollows(rules, s, p, ds, Move(id, afterId), Flagged(MoveAfter(id, afterId), false));
  }

  lemma MoveCommandFollows(
      rules: Rules, s: State, next: Script, ds: seq<Decisions>, id: string, afterId: Option<string>)
    requires |ds| == |next.items|
    requires MoveItem(s.script, id, afterId) == Some(WithItems(next, SettleAll(next.items, ds)))
    ensures var r := ApplyCommand(rules, s, Flagged(MoveAfter(id, afterId), false));
      r.Done? && Follows(r.value, next, ds)
  {
  }

  lemma RemoveFollows(rules: Rules, s: State, p: Script, ds: seq<Decisions>, id: string)
    requires WellFormed(p) && Follows(s, p, ds) && ApplyOp(p, Remove(id)).Done?
    ensures FollowsNext(rules, s, p, ds, Remove(id))
  {
    SameIdsWhenFollowing(s, p, ds);
    SettleAllRemove(p.items, ds, Find(IdsOf(p), id));
    ReplayOfOne(rules, s, Flagged(RemoveCmd(id), false));
  }

  lemma SplitFollows(rules: Rules, s: State, p: Script, ds: seq<Decisions>, id: string, parts: seq<Item>)
    requires WellFormed(p) && Follows(s, p, ds) && id != "" && ApplyOp(p, Split(id, parts)).Done?
    ensures FollowsNext(rules, s, p, ds, Split(id, parts))
  {
    var at := Find(IdsOf(p), id);
    var block := SplitParts(p, at, parts);
    SameIdsWhenFollowing(s, p, ds);
    SplitResult(rules, s, p, id, parts);
    CreationsAreDecided(rules, p.idField, block);
    SettleAllReplace(p.items, ds, at, block, AllOnCreation(rules, p.idField, block));
  }

  // ----- Operation lists -----

  /** Every item of the final candidate is the preview's, each marker as the last operation that decides
      it decided it, or as it was when none did. */
  lemma {:induction false} ReplayFollowsDecisions(
      rules: Rules, s: State, p: Script, ds: seq<Decisions>, ops: seq<PatchOp>)
    requires WellFormed(p) && Follows(s, p, ds)
    ensures Preview(p, ops).Done? && (forall op <- ops :: Admissible(op)) ==>
      && Blocks(p, ops).Done?
      && var r := Replay(rules, s, Flatten(Blocks(p, ops).value));
         r.Done? && Follows(r.value, Preview(p, ops).value, Last(rules, p, ops, ds))
    decreases |ops|
  {
    if ops != [] && Preview(p, ops).Done? && forall op <- ops :: Admissible(op) {
      var next := ApplyOp(p, ops[0]).value;
      var cmds := Compile(p, ops[0], next);
      OperationFollows(rules, s, p, ds, ops[0]);
      ApplyKeepsWellFormed(p, ops[0]);
      var s' := Replay(rules, s, cmds).value;
      ReplayFollowsDecisions(rules, s', next, Next(rules, p, ops[0], ds), ops[1..]);
      var rest := Blocks(next, ops[1..]).value;
      FlattenCons(cmds, rest);
      ReplayOfConcat(rules, s, cmds, Flatten(rest));
    }
  }

  /** The final item list is the preview's to the letter if and only if every item of the preview carries
      its markers as they were last decided. */
  lemma FinalReplayIsExactIff(rules: Rules, s: State, ops: seq<PatchOp>)
    requires WellFormed(s.script)
    ensures Preview(s.script, ops).Done? && (forall op <- ops :: Admissible(op)) ==>
      && Blocks(s.script, ops).Done?
      && var preview := Preview(s.script, ops).value;
         var last := Last(rules, s.script, ops, AllUndecided(|s.script.items|));
         var r := Replay(rules, s, Flatten(Blocks(s.script, ops).value));
         && r.Done?
         && (r.value.script == preview <==>
             forall i | 0 <= i < |preview.items| :: Carries(preview.items[i], last[i]))
  {
    var p, undecided := s.script, AllUndecided(|s.script.items|);
    assert SettleAll(p.items, undecided) == p.items;
    ReplayFollowsDecisions(rules, s, p, undecided, ops);
    if Preview(p, ops).Done? && forall op <- ops :: Admissible(op) {
      SettleAllIsIdentityIff(Preview(p, ops).value.items, Last(rules, p, ops, undecided));
    }
  }

  // ----- Final lists that are exact where a prefix is not -----

  const EMPTY_STATE := State(Script([], "segment_id", 'S', Some(1)), map[])

  const BARE_SEGMENT: Item := map["novel_text" := Str("text")]

  const PROMPTS := [Field(["image_prompt"], Str("a")), Field(["video_prompt"], Str("b"))]

  /** A segment without prompts is put into the empty script, then `op` is applied. */
  function InsertThen(op: PatchOp): seq<PatchOp> {
    [Insert(None, BARE_SEGMENT), op]
  }

  function BareItem(): Item {
    FreshItem("segment_id", BARE_SEGMENT, NewItemId(EMPTY_STATE.script))
  }

  function BareScript(): Script {
    WithItems(EMPTY_STATE.script, [BareItem()])
  }

  /** The final items are the preview's, those after the first operation are not. */
  ghost predicate EndsExact(rules: Rules, ops: seq<PatchOp>) {
    ops != [] && ExactUpTo(rules, EMPTY_STATE, ops, |ops|) && !ExactUpTo(rules, EMPTY_STATE, ops, 1)
  }

  /** The editor marks the inserted segment as pending, which the preview does not; the update that fills
      the prompts in takes the marker off again. */
  lemma InsertThenFill(rules: Rules)
    ensures EndsExact(rules, InsertThen(Update(NewItemId(EMPTY_STATE.script), PROMPTS)))
  {
    var op := Update(NewItemId(EMPTY_STATE.script), PROMPTS);
    BareInsertDiffers(rules, op);
    BareInsert();
    PromptsAreFilled(rules);
    ExactAtTheEnd(rules, op);
  }

  /** The removal of the segment takes the difference with it. */
  lemma InsertThenRemove(rules: Rules)
    ensures EndsExact(rules, InsertThen(Remove(NewItemId(EMPTY_STATE.script))))
  {
    var op := Remove(NewItemId(EMPTY_STATE.script));
    BareInsertDiffers(rules, op);
    BareInsert();
    ExactAtTheEnd(rules, op);
  }

  lemma BareInsert()
    ensures WellFormed(EMPTY_STATE.script)
    ensures ApplyOp(EMPTY_STATE.script, Insert(None, BARE_SEGMENT)) == Done(BareScript())
    ensures IdsOf(BareScript()) == [NewItemId(EMPTY_STATE.script)]
  {
    assert InsertAt([], 0, BareItem()) == [BareItem()];
  }

  lemma BareInsertDiffers(rules: Rules, op: PatchOp)
    ensures !ExactUpTo(rules, EMPTY_STATE, InsertThen(op), 1)
  {
    var ops := InsertThen(op);
    BareInsert();
    NothingYet(rules, EMPTY_STATE, ops);
    NextIsExactIff(rules, EMPTY_STATE, ops, 0);
    BareInsertIsOpen(rules);
  }

  lemma BareInsertIsOpen(rules: Rules)
    ensures !Settled(rules, EMPTY_STATE.script, Insert(None, BARE_SEGMENT))
  {
    BareInsert();
    InsertWithoutPromptsDiffers(rules);
    InsertIsExactIff(rules, EMPTY_STATE, None, BARE_SEGMENT);
  }

  /** What the second operation decides about the inserted segment. */
  function SecondDecisions(rules: Rules, op: PatchOp): seq<Decisions>
    requires ApplyOp(BareScript(), op).Done?
  {
    Next(rules, BareScript(), op, Created(rules))
  }

  lemma ExactAtTheEnd(rules: Rules, op: PatchOp)
    requires Admissible(op) && ApplyOp(BareScript(), op).Done?
    requires var items := ApplyOp(BareScript(), op).value.items; var ds := SecondDecisions(rules, op);
      |ds| == |items| && forall i | 0 <= i < |items| :: Carries(items[i], ds[i])
    ensures ExactUpTo(rules, EMPTY_STATE, InsertThen(op), 2)
  {
    var ops := InsertThen(op);
    BareInsert();
    PreviewOfTwo(ops[0], op);
    LastOfTwo(rules, op);
    assert ops[..2] == ops;
    FinalReplayIsExactIff(rules, EMPTY_STATE, ops);
  }

  lemma PreviewOfTwo(first: PatchOp, op: PatchOp)
    requires ApplyOp(EMPTY_STATE.script, first) == Done(BareScript()) && ApplyOp(BareScript(), op).Done?
    ensures Preview(EMPTY_STATE.script, [first, op]) == ApplyOp(BareScript(), op)
  {
    assert [first, op][1..] == [op] && [op][1..] == [];
    assert Preview(BareScript(), [op]) == ApplyOp(BareScript(), op);
  }

  function Created(rules: Rules): seq<Decisions> {
    [OnCreation(rules, "segment_id", BareItem())]
  }

  lemma FirstDecisions(rules: Rules)
    requires ApplyOp(EMPTY_STATE.script, Insert(None, BARE_SEGMENT)) == Done(BareScript())
    ensures Next(rules, EMPTY_STATE.script, Insert(None, BARE_SEGMENT), AllUndecided(0)) == Created(rules)
  {
    assert InsertAt(AllUndecided(0), 0, Created(rules)[0]) == Created(rules);
  }

  lemma LastOfOne(rules: Rules, op: PatchOp)
    requires ApplyOp(BareScript(), op).Done? && Preview(BareScript(), [op]).Done?
    ensures Last(rules, BareScript(), [op], Created(rules)) == SecondDecisions(rules, op)
  {
    assert [op][1..] == [];
    NextFits(rules, BareScript(), op, Created(rules));
  }

  lemma LastOfTwo(rules: Rules, op: PatchOp)
    requires ApplyOp(BareScript(), op).Done?
    requires Preview(EMPTY_STATE.script, InsertThen(op)) == ApplyOp(BareScript(), op)
    requires ApplyOp(EMPTY_STATE.script, Insert(None, BARE_SEGMENT)) == Done(BareScript())
    ensures Last(rules, EMPTY_STATE.script, InsertThen(op), AllUndecided(0)) == SecondDecisions(rules, op)
  {
    assert InsertThen(op)[1..] == [op];
    FirstDecisions(rules);
    LastOfOne(rules, op);
  }

  function FilledItem(): Item {
    BareItem()["image_prompt" := Str("a")]["video_prompt" := Str("b")]
  }

  lemma PromptIsSet(item: Item, name: string, text: string)
    requires name in VisualLayer("segment_id")
    ensures SetNested(item, [name], Str(text)) == Some(item[name := Str(text)])
  {
    assert name[0] != 'g' && name[0] != 'n' && name[0] != 'p' && name[0] != 'e' && name[0] != 's' && name[0] != 'u';
  }

  lemma PromptsAreSet(unit: string)
    ensures SetFields(BareItem(), PROMPTS, unit) == Done(FilledItem())
  {
    PromptIsSet(BareItem(), "image_prompt", "a");
    PromptIsSet(BareItem()["image_prompt" := Str("a")], "video_prompt", "b");
    assert PROMPTS[1..] == [PROMPTS[1]] && [PROMPTS[1]][1..] == [];
  }

  lemma FilledEndsAuthoring()
    ensures AuthoringEnds("segment_id", PROMPTS, FilledItem())
  {
    assert PROMPTS[0].parts[0] in Roots(PROMPTS) * VisualLayer("segment_id");
    assert FilledItem()["image_prompt"] == Str("a") && FilledItem()["video_prompt"] == Str("b");
  }

  lemma FilledIsUnmarked()
    ensures PENDING !in FilledItem() && REPLAN !in FilledItem()
  {
    assert PENDING !in BARE_SEGMENT && REPLAN !in BARE_SEGMENT;
  }

  lemma PromptsAreFilled(rules: Rules)
    requires IdsOf(BareScript()) == [NewItemId(EMPTY_STATE.script)]
    ensures var op := Update(NewItemId(EMPTY_STATE.script), PROMPTS);
      && ApplyOp(BareScript(), op).Done?
      && var items := ApplyOp(BareScript(), op).value.items; var ds := SecondDecisions(rules, op);
         |items| == |ds| == 1 && Carries(items[0], ds[0])
  {
    PromptsAreSet(NewItemId(EMPTY_STATE.script));
    FilledEndsAuthoring();
    FilledIsUnmarked();
  }
}
