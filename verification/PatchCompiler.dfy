/** The script patch compiler (server/tool_runtime.py): public edit operations are projected onto the
    commands of the batch editor (lib/script/script_batch_edit.py), with an index map for blame. */
module PatchCompiler {
  import opened ScriptEditor
  import opened DerivedMarkers

  // ----- Public operations and their meaning -----

  datatype PatchOp =
    | Update(id: string, fields: seq<Field>)
    | Insert(afterId: Option<string>, item: Item)
    | Move(id: string, afterId: Option<string>)
    | Remove(id: string)
    | Split(id: string, parts: seq<Item>)

  /** What the request schema demands of an operation. */
  predicate Admissible(op: PatchOp) {
    match op
    case Update(id, fields) => id != "" && fields != []
    case Insert(_, _) => true
    case Move(id, _) => id != ""
    case Remove(id) => id != ""
    case Split(id, parts) => id != "" && |parts| >= 2
  }

  function WithItems(script: Script, items: seq<Item>): Script {
    script.(items := items)
  }

  function IdsOf(script: Script): (r: seq<string>)
    ensures |r| == |script.items|
  {
    Ids(script.idField, script.items)
  }

  function MoveItem(script: Script, id: string, afterId: Option<string>): Option<Script> {
    var at := Find(IdsOf(script), id);
    if afterId == Some(id) || at == |script.items| then None
    else
      var rest := RemoveAt(script.items, at);
      match AnchorAt(Ids(script.idField, rest), afterId)
      case None => None
      case Some(to) => Some(WithItems(script, InsertAt(rest, to, script.items[at])))
  }

  /** The operation applied to the preview, or where and on which unit it is rejected. */
  function ApplyOp(script: Script, op: PatchOp): Edit<Script> {
    match op
    case Update(id, fields) =>
      var at := Find(IdsOf(script), id);
      if fields == [] then Done(script)
      else if at == |script.items| then Rejected(FieldLocation(fields[0].parts), Some(id))
      else
        (match SetFields(script.items[at], fields, id)
         case Rejected(location, unit) => Rejected(location, unit)
         case Done(item) => Done(WithItems(script, script.items[at := item])))
    case Insert(afterId, item) =>
      (match AnchorAt(IdsOf(script), afterId)
       case None => Rejected([Key("after_id")], afterId)
       case Some(at) =>
         Done(WithItems(script, InsertAt(script.items, at, FreshItem(script.idField, item, NewItemId(script))))))
    case Move(id, afterId) =>
      if Find(IdsOf(script), id) == |script.items| then Rejected([Key("id")], Some(id))
      else
        (match MoveItem(script, id, afterId)
         case None => Rejected([Key("after_id")], Some(id))
         case Some(next) => Done(next))
    case Remove(id) =>
      var at := Find(IdsOf(script), id);
      if at == |script.items| then Rejected([Key("id")], Some(id))
      else Done(WithItems(script, RemoveAt(script.items, at)))
    case Split(id, parts) =>
      var at := Find(IdsOf(script), id);
      if at == |script.items| then Rejected([Key("id")], Some(id))
      else if |parts| < 2 then Rejected([Key("parts")], Some(id))
      else Done(WithItems(script, script.items[..at] + SplitParts(script, at, parts) + script.items[at + 1..]))
  }

  /** The whole operation list applied in order. */
  function Preview(script: Script, ops: seq<PatchOp>): Edit<Script>
    decreases |ops|
  {
    if ops == [] then Done(script)
    else
      match ApplyOp(script, ops[0])
      case Rejected(location, unit) => Rejected(location, unit)
      case Done(next) => Preview(next, ops[1..])
  }

  // ----- Commands of the batch editor -----

  datatype Command =
    | UpdateCmd(id: string, fields: seq<Field>)
    | InsertAfter(afterId: Option<string>, item: Item)
    | MoveAfter(id: string, afterId: Option<string>)
    | RemoveCmd(id: string)

  /** The candidate script and the items removed by this batch, by id. */
  datatype State = State(script: Script, removed: map<string, Item>)

  /** A command with the flag that an insert never inherits the media of a removed item. */
  datatype Flagged = Flagged(cmd: Command, anew: bool)

  /** The media an inserted item gets: those of a removed item with its id, or none. */
  function WithMediaOf(item: Item, removed: Option<Item>): Item {
    match removed
    case None => Without(item[ASSETS := Obj(map[])], END_FRAME)
    case Some(source) => WithEndFrame(item[ASSETS := AssetsOf(source)], source)
  }

  function Inserted(rules: Rules, idField: string, item: Item, removed: Option<Item>): Item {
    AfterInsert(rules, idField, WithMediaOf(item, removed))
  }

  function ApplyCommand(rules: Rules, s: State, f: Flagged): Edit<State> {
    var script := s.script;
    match f.cmd
    case UpdateCmd(id, fields) =>
      var at := Find(IdsOf(script), id);
      if at == |script.items| then Rejected([Key("id")], Some(id))
      else
        (match SetFields(script.items[at], fields, id)
         case Rejected(location, unit) => Rejected(location, unit)
         case Done(item) =>
           var settled := AfterUpdate(rules, script.idField, fields, script.items[at], item);
           Done(s.(script := WithItems(script, script.items[at := settled]))))
    case InsertAfter(afterId, item) =>
      var id := IdOf(script.idField, item);
      if !HasId(script.idField, item) || id == "" || id in IdsOf(script) then
        Rejected([Key("item"), Key(script.idField)], Some(id))
      else
        (match AnchorAt(IdsOf(script), afterId)
         case None => Rejected([Key("after_id")], afterId)
         case Some(at) =>
           var removed := if id in s.removed && !f.anew then Some(s.removed[id]) else None;
           var placed := Inserted(rules, script.idField, item, removed);
           Done(State(WithItems(script, InsertAt(script.items, at, placed)), s.removed - {id})))
    case MoveAfter(id, afterId) =>
      (match MoveItem(script, id, afterId)
       case None =>
         var missing := afterId != Some(id) && Find(IdsOf(script), id) == |script.items|;
         Rejected([Key(if missing then "id" else "after_id")], Some(id))
       case Some(next) => Done(s.(script := next)))
    case RemoveCmd(id) =>
      var at := Find(IdsOf(script), id);
      if at == |script.items| then Rejected([Key("id")], Some(id))
      else
        Done(State(WithItems(script, RemoveAt(script.items, at)), s.removed[id := script.items[at]]))
  }

  /** Steps taken one after the other, until one is rejected. */
  function Fold<S, C>(step: (S, C) -> Edit<S>, s: S, cs: seq<C>): Edit<S> {
    if cs == [] then Done(s)
    else
      match step(s, cs[0])
      case Rejected(location, unit) => Rejected(location, unit)
      case Done(next) => Fold(step, next, cs[1..])
  }

  function Editor(rules: Rules): (State, Flagged) -> Edit<State> {
    (s, f) => ApplyCommand(rules, s, f)
  }

  function Replay(rules: Rules, s: State, cmds: seq<Flagged>): Edit<State> {
    Fold(Editor(rules), s, cmds)
  }

  // ----- The projection -----

  /** Inserts of the parts from `k` on, each after the one before. */
  function PartCommands(idField: string, afterId: Option<string>, parts: seq<Item>, k: nat): (r: seq<Flagged>)
    requires k <= |parts|
    ensures |r| == |parts| - k
    decreases |parts| - k
  {
    if k == |parts| then []
    else
      [Flagged(InsertAfter(afterId, parts[k]), k > 0)]
      + PartCommands(idField, Some(IdOf(idField, parts[k])), parts, k + 1)
  }

  /** The commands of one operation, read off the preview before and after it. */
  function Compile(before: Script, op: PatchOp, after: Script): seq<Flagged>
    requires ApplyOp(before, op) == Done(after)
  {
    match op
    case Update(id, fields) => [Flagged(UpdateCmd(id, fields), false)]
    case Insert(afterId, _) =>
      [Flagged(InsertAfter(afterId, after.items[AnchorAt(IdsOf(before), afterId).value]), true)]
    case Move(id, afterId) => [Flagged(MoveAfter(id, afterId), false)]
    case Remove(id) => [Flagged(RemoveCmd(id), false)]
    case Split(id, parts) =>
      var at := Find(IdsOf(before), id);
      var previous := if at > 0 then Some(IdsOf(before)[at - 1]) else None;
      [Flagged(RemoveCmd(id), false)]
      + PartCommands(before.idField, previous, after.items[at..at + |parts|], 0)
  }

  /** Number of commands an operation owns. */
  function BlockSize(op: PatchOp): nat {
    if op.Split? then 1 + |op.parts| else 1
  }

  /** The command blocks of all operations, or the first rejection. */
  function Blocks(script: Script, ops: seq<PatchOp>): Edit<seq<seq<Flagged>>>
    decreases |ops|
  {
    if ops == [] then Done([])
    else
      match ApplyOp(script, ops[0])
      case Rejected(location, unit) => Rejected(location, unit)
      case Done(next) =>
        match Blocks(next, ops[1..])
        case Rejected(location, unit) => Rejected(location, unit)
        case Done(rest) => Done([Compile(script, ops[0], next)] + rest)
  }

  function Flatten<T>(blocks: seq<seq<T>>): seq<T> {
    if blocks == [] then [] else blocks[0] + Flatten(blocks[1..])
  }

  function Repeat(n: nat, x: nat): (r: seq<nat>)
    ensures |r| == n && forall i | 0 <= i < n :: r[i] == x
  {
    if n == 0 then [] else [x] + Repeat(n - 1, x)
  }

  /** For each command the operation it comes from, counted from `index`. */
  function Sources(ops: seq<PatchOp>, index: nat): seq<nat> {
    if ops == [] then [] else Repeat(BlockSize(ops[0]), index) + Sources(ops[1..], index + 1)
  }

  // ----- Items up to the derived markers -----

  ghost predicate SameCores(a: seq<Item>, b: seq<Item>) {
    |a| == |b| && forall i | 0 <= i < |a| :: Core(a[i]) == Core(b[i])
  }

  /** The scripts agree on everything but the markers the editor derives. */
  ghost predicate SameScript(a: Script, b: Script) {
    SameCores(a.items, b.items) && a == b.(items := a.items)
  }

  lemma SetOnCores(a: Item, b: Item, key: string, value: Json)
    requires Core(a) == Core(b) && key != PENDING && key != REPLAN
    ensures Core(a[key := value]) == Core(b[key := value])
  {
    assert Core(a[key := value]) == Core(a)[key := value];
    assert Core(b[key := value]) == Core(b)[key := value];
  }

  lemma SameIds(idField: string, a: seq<Item>, b: seq<Item>)
    requires SameCores(a, b) && idField in ID_FIELDS
    ensures Ids(idField, a) == Ids(idField, b)
  {
    forall i | 0 <= i < |a| ensures IdOf(idField, a[i]) == IdOf(idField, b[i]) {
      SameField(a[i], b[i], idField);
    }
  }

  lemma SetPathOnCores(a: Item, b: Item, parts: seq<string>, value: Json)
    requires Core(a) == Core(b) && parts != [] && parts[0] != PENDING && parts[0] != REPLAN
    ensures match (SetPath(a, parts, value), SetPath(b, parts, value))
      case (Some(x), Some(y)) => Core(x) == Core(y)
      case (None, None) => true
      case _ => false
  {
    var key := parts[0];
    SameField(a, b, key);
    if |parts| == 1 {
      SetOnCores(a, b, key, value);
    } else if SetPath(a, parts, value).Some? {
      SetOnCores(a, b, key, Obj(SetPath(a[key].fields, parts[1..], value).value));
    }
  }

  lemma {:induction false} SetFieldsOnCores(a: Item, b: Item, fields: seq<Field>, unit: string)
    requires Core(a) == Core(b)
    ensures match (SetFields(a, fields, unit), SetFields(b, fields, unit))
      case (Done(x), Done(y)) => Core(x) == Core(y)
      case (Rejected(l, u), Rejected(m, v)) => l == m && u == v
      case _ => false
    decreases |fields|
  {
    if fields != [] && Settable(fields[0].parts, fields[0].value) {
      SetPathOnCores(a, b, fields[0].parts, fields[0].value);
      var x, y := SetPath(a, fields[0].parts, fields[0].value), SetPath(b, fields[0].parts, fields[0].value);
      if x.Some? { SetFieldsOnCores(x.value, y.value, fields[1..], unit); }
    }
  }

  /** An update leaves the id of the item alone. */
  lemma {:induction false} SetFieldsKeepsId(item: Item, fields: seq<Field>, unit: string, idField: string)
    requires idField in ID_FIELDS && HasId(idField, item)
    ensures SetFields(item, fields, unit).Done? ==>
      var r := SetFields(item, fields, unit).value; HasId(idField, r) && IdOf(idField, r) == IdOf(idField, item)
    decreases |fields|
  {
    if fields != [] && SetNested(item, fields[0].parts, fields[0].value).Some? {
      var next := SetPath(item, fields[0].parts, fields[0].value).value;
      assert idField in next && next[idField] == item[idField];
      SetFieldsKeepsId(next, fields[1..], unit, idField);
    }
  }

  // ----- Ids stay unique -----

  lemma UniqueInsert(ids: seq<string>, at: nat, id: string)
    requires Unique(ids) && at <= |ids| && id !in ids
    ensures Unique(InsertAt(ids, at, id))
  {
    var r := InsertAt(ids, at, id);
    forall i, j | 0 <= i < j < |r| ensures r[i] != r[j] {
      if i != at && j != at {
        var i', j' := if i < at then i else i - 1, if j < at then j else j - 1;
        assert r[i] == ids[i'] && r[j] == ids[j'];
      } else if i == at {
        assert r[j] == ids[j - 1];
      } else {
        assert r[i] == ids[i];
      }
    }
  }

  lemma UniqueRemove(ids: seq<string>, at: nat)
    requires Unique(ids) && at < |ids|
    ensures Unique(RemoveAt(ids, at)) && ids[at] !in RemoveAt(ids, at)
  {
    var r := RemoveAt(ids, at);
    forall i | 0 <= i < |r| ensures r[i] == ids[if i < at then i else i + 1] {}
  }

  /** With unique ids the first match is the only one. */
  lemma FindUnique(ids: seq<string>, at: nat)
    requires Unique(ids) && at < |ids|
    ensures Find(ids, ids[at]) == at
  {
  }

  lemma IdsOfInsert(idField: string, items: seq<Item>, at: nat, item: Item)
    requires at <= |items|
    ensures Ids(idField, InsertAt(items, at, item)) == InsertAt(Ids(idField, items), at, IdOf(idField, item))
  {
  }

  lemma IdsOfRemove(idField: string, items: seq<Item>, at: nat)
    requires at < |items|
    ensures Ids(idField, RemoveAt(items, at)) == RemoveAt(Ids(idField, items), at)
  {
  }

  lemma InsertKeepsWellFormed(script: Script, at: nat, item: Item)
    requires WellFormed(script) && at <= |script.items|
    requires HasId(script.idField, item) && IdOf(script.idField, item) !in IdsOf(script)
    ensures WellFormed(WithItems(script, InsertAt(script.items, at, item)))
  {
    IdsOfInsert(script.idField, script.items, at, item);
    UniqueInsert(IdsOf(script), at, IdOf(script.idField, item));
  }

  lemma RemoveKeepsWellFormed(script: Script, at: nat)
    requires WellFormed(script) && at < |script.items|
    ensures WellFormed(WithItems(script, RemoveAt(script.items, at)))
    ensures IdsOf(script)[at] !in IdsOf(WithItems(script, RemoveAt(script.items, at)))
  {
    IdsOfRemove(script.idField, script.items, at);
    UniqueRemove(IdsOf(script), at);
  }

  lemma SplitKeepsWellFormed(script: Script, at: nat, parts: seq<Item>)
    requires WellFormed(script) && at < |script.items| && |parts| >= 1
    ensures WellFormed(WithItems(script, script.items[..at] + SplitParts(script, at, parts) + script.items[at + 1..]))
  {
    var rest := WithItems(script, RemoveAt(script.items, at));
    RemoveKeepsWellFormed(script, at);
    var ids := IdsOf(script);
    PartsAreNew(script, at, parts);
    InsertBlock(rest, at, SplitParts(script, at, parts));
    assert rest.items[..at] == script.items[..at] && rest.items[at..] == script.items[at + 1..];
  }

  /** A block of items with ids that are new and differ from each other goes in anywhere. */
  lemma {:induction false} InsertBlock(script: Script, at: nat, block: seq<Item>)
    requires WellFormed(script) && at <= |script.items|
    requires forall i | 0 <= i < |block| ::
      HasId(script.idField, block[i]) && IdOf(script.idField, block[i]) !in IdsOf(script)
    requires Unique(Ids(script.idField, block))
    ensures WellFormed(WithItems(script, script.items[..at] + block + script.items[at..]))
    decreases |block|
  {
    if block == [] {
      assert script.items[..at] + block + script.items[at..] == script.items;
    } else {
      var last := |block| - 1;
      var init := block[..last];
      var next := WithItems(script, InsertAt(script.items, at, block[last]));
      InsertKeepsWellFormed(script, at, block[last]);
      BlockStaysNew(script, at, block);
      InsertBlock(next, at, init);
      InsertLast(script.items, at, block);
    }
  }

  lemma InsertLast(items: seq<Item>, at: nat, block: seq<Item>)
    requires at <= |items| && block != []
    ensures var next := InsertAt(items, at, block[|block| - 1]);
      next[..at] + block[..|block| - 1] + next[at..] == items[..at] + block + items[at..]
  {
    var next := InsertAt(items, at, block[|block| - 1]);
    assert next[..at] == items[..at] && next[at..] == [block[|block| - 1]] + items[at..];
    assert block == block[..|block| - 1] + [block[|block| - 1]];
  }

  lemma BlockStaysNew(script: Script, at: nat, block: seq<Item>)
    requires at <= |script.items| && block != []
    requires forall i | 0 <= i < |block| :: IdOf(script.idField, block[i]) !in IdsOf(script)
    requires Unique(Ids(script.idField, block))
    ensures var last := |block| - 1;
      var next := WithItems(script, InsertAt(script.items, at, block[last]));
      && (forall i | 0 <= i < last :: IdOf(script.idField, block[..last][i]) !in IdsOf(next))
      && Unique(Ids(script.idField, block[..last]))
  {
    var last := |block| - 1;
    IdsOfInsert(script.idField, script.items, at, block[last]);
    assert Ids(script.idField, block[..last]) == Ids(script.idField, block)[..last];
    forall i | 0 <= i < last
      ensures IdOf(script.idField, block[..last][i]) !in InsertAt(IdsOf(script), at, IdOf(script.idField, block[last]))
    {
      assert Ids(script.idField, block)[i] != Ids(script.idField, block)[last];
    }
  }

  /** The parts of a split: the first keeps the split id, the others have new ids. */
  lemma PartsAreNew(script: Script, at: nat, parts: seq<Item>)
    requires WellFormed(script) && at < |script.items| && |parts| >= 1
    ensures var block := SplitParts(script, at, parts); var rest := RemoveAt(script.items, at);
      && (forall i | 0 <= i < |block| :: HasId(script.idField, block[i]))
      && IdOf(script.idField, block[0]) == IdsOf(script)[at]
      && (forall i | 0 <= i < |block| :: IdOf(script.idField, block[i]) !in Ids(script.idField, rest))
      && (forall i | 1 <= i < |block| :: IdOf(script.idField, block[i]) != "")
      && Unique(Ids(script.idField, block))
  {
    var ids := IdsOf(script);
    var block := SplitParts(script, at, parts);
    FurtherPartsAreNew(script.idField, ids[at], parts[1..], Taken(ids));
    IdsOfRemove(script.idField, script.items, at);
    AnchorAndFurther(script.idField, ids, at, block, FurtherParts(script.idField, ids[at], parts[1..], Taken(ids)));
  }

  lemma AnchorAndFurther(idField: string, ids: seq<string>, at: nat, block: seq<Item>, further: seq<Item>)
    requires Unique(ids) && at < |ids| && block != [] && block[1..] == further
    requires HasId(idField, block[0]) && IdOf(idField, block[0]) == ids[at]
    requires forall i | 0 <= i < |further| ::
      HasId(idField, further[i]) && IdOf(idField, further[i]) !in ids && IdOf(idField, further[i]) != ""
    requires Unique(Ids(idField, further))
    ensures forall i | 0 <= i < |block| :: HasId(idField, block[i])
    ensures forall i | 0 <= i < |block| :: IdOf(idField, block[i]) !in RemoveAt(ids, at)
    ensures forall i | 1 <= i < |block| :: IdOf(idField, block[i]) != ""
    ensures Unique(Ids(idField, block))
  {
    UniqueRemove(ids, at);
    forall i | 1 <= i < |block| ensures block[i] == further[i - 1] {}
    forall id | id in RemoveAt(ids, at) ensures id in ids {}
    UniqueCons(Ids(idField, block), Ids(idField, further));
  }

  lemma UniqueCons(ids: seq<string>, rest: seq<string>)
    requires ids != [] && ids[1..] == rest && Unique(rest) && ids[0] !in rest
    ensures Unique(ids)
  {
    forall i, j | 0 <= i < j < |ids| ensures ids[i] != ids[j] {
      assert ids[j] == rest[j - 1];
      if i > 0 { assert ids[i] == rest[i - 1]; }
    }
  }

  lemma {:induction false} FurtherPartsAreNew(idField: string, base: string, parts: seq<Item>, taken: set<string>)
    requires idField in ID_FIELDS
    ensures var r := FurtherParts(idField, base, parts, taken);
      && (forall i | 0 <= i < |r| :: HasId(idField, r[i]) && IdOf(idField, r[i]) !in taken && IdOf(idField, r[i]) != "")
      && Unique(Ids(idField, r))
    decreases |parts|
  {
    if parts != [] {
      var id := NextSuffixedId(base, taken);
      var r := FurtherParts(idField, base, parts, taken);
      FurtherPartsAreNew(idField, base, parts[1..], taken + {id});
      assert HasId(idField, r[0]) && IdOf(idField, r[0]) == id;
      forall i | 1 <= i < |r|
        ensures HasId(idField, r[i]) && IdOf(idField, r[i]) !in taken + {id} && IdOf(idField, r[i]) != ""
      {
        assert r[i] == r[1..][i - 1];
      }
      UniqueCons(Ids(idField, r), Ids(idField, r[1..]));
    }
  }

  lemma UpdateKeepsWellFormed(script: Script, id: string, fields: seq<Field>)
    requires WellFormed(script) && ApplyOp(script, Update(id, fields)).Done?
    ensures WellFormed(ApplyOp(script, Update(id, fields)).value)
  {
    if fields != [] {
      SetFieldsKeepsId(script.items[Find(IdsOf(script), id)], fields, id, script.idField);
      assert Ids(script.idField, ApplyOp(script, Update(id, fields)).value.items) == IdsOf(script);
    }
  }

  lemma MoveKeepsWellFormed(script: Script, id: string, afterId: Option<string>)
    requires WellFormed(script) && ApplyOp(script, Move(id, afterId)).Done?
    ensures WellFormed(ApplyOp(script, Move(id, afterId)).value)
  {
    var at := Find(IdsOf(script), id);
    var rest := WithItems(script, RemoveAt(script.items, at));
    RemoveKeepsWellFormed(script, at);
    InsertKeepsWellFormed(rest, AnchorAt(IdsOf(rest), afterId).value, script.items[at]);
  }

  /** Every operation keeps ids present and unique. */
  lemma ApplyKeepsWellFormed(script: Script, op: PatchOp)
    requires WellFormed(script) && ApplyOp(script, op).Done?
    ensures WellFormed(ApplyOp(script, op).value)
  {
    match op
    case Update(id, fields) => UpdateKeepsWellFormed(script, id, fields);
    case Insert(afterId, item) =>
      var at := AnchorAt(IdsOf(script), afterId).value;
      InsertKeepsWellFormed(script, at, FreshItem(script.idField, item, NewItemId(script)));
    case Move(id, afterId) => MoveKeepsWellFormed(script, id, afterId);
    case Remove(id) =>
      RemoveKeepsWellFormed(script, Find(IdsOf(script), id));
    case Split(id, parts) =>
      SplitKeepsWellFormed(script, Find(IdsOf(script), id), parts);
  }

  // ----- Replaying the commands rebuilds the preview -----

  lemma ReplayOfConcat(rules: Rules, s: State, a: seq<Flagged>, b: seq<Flagged>)
    requires Replay(rules, s, a).Done?
    ensures Replay(rules, s, a + b) == Replay(rules, Replay(rules, s, a).value, b)
  {
    FoldOfConcat(Editor(rules), s, a, b);
  }

  lemma {:induction false} FoldOfConcat<S, C>(step: (S, C) -> Edit<S>, s: S, a: seq<C>, b: seq<C>)
    requires Fold(step, s, a).Done?
    ensures Fold(step, s, a + b) == Fold(step, Fold(step, s, a).value, b)
    decreases |a|
  {
    if a == [] {
      assert a + b == b;
    } else {
      assert a + b != [] && (a + b)[0] == a[0] && (a + b)[1..] == a[1..] + b;
      FoldOfConcat(step, step(s, a[0]).value, a[1..], b);
    }
  }

  /** The replay of `cmds` succeeds and ends in `script`, up to the derived markers. */
  ghost predicate Rebuilds(rules: Rules, s: State, cmds: seq<Flagged>, script: Script) {
    var r := Replay(rules, s, cmds);
    r.Done? && SameScript(r.value.script, script)
  }

  lemma RebuildsInTwo(
      rules: Rules, s: State, first: seq<Flagged>, between: Script, rest: seq<Flagged>, script: Script)
    requires Rebuilds(rules, s, first, between) && Rebuilds(rules, Replay(rules, s, first).value, rest, script)
    ensures Rebuilds(rules, s, first + rest, script)
  {
    ReplayOfConcat(rules, s, first, rest);
  }

  lemma ReplayOfOne(rules: Rules, s: State, f: Flagged)
    ensures ApplyCommand(rules, s, f).Done? ==> Replay(rules, s, [f]) == ApplyCommand(rules, s, f)
  {
    FoldOfOne(Editor(rules), s, f);
  }

  lemma FoldOfOne<S, C>(step: (S, C) -> Edit<S>, s: S, c: C)
    ensures step(s, c).Done? ==> Fold(step, s, [c]) == step(s, c)
  {
    assert [c][1..] == [];
    if step(s, c).Done? {
      assert Fold(step, step(s, c).value, []) == step(s, c);
    }
  }

  lemma UpdateReplays(rules: Rules, s: State, p: Script, id: string, fields: seq<Field>)
    requires WellFormed(p) && SameScript(s.script, p) && fields != []
    requires ApplyOp(p, Update(id, fields)).Done?
    ensures Rebuilds(rules, s, [Flagged(UpdateCmd(id, fields), false)], ApplyOp(p, Update(id, fields)).value)
  {
    SameIds(p.idField, s.script.items, p.items);
    var at := Find(IdsOf(p), id);
    SetFieldsOnCores(s.script.items[at], p.items[at], fields, id);
    ReplayOfOne(rules, s, Flagged(UpdateCmd(id, fields), false));
  }

  lemma RemoveReplays(rules: Rules, s: State, p: Script, id: string)
    requires WellFormed(p) && SameScript(s.script, p) && Find(IdsOf(p), id) < |p.items|
    ensures var at := Find(IdsOf(p), id);
      && Rebuilds(rules, s, [Flagged(RemoveCmd(id), false)], WithItems(p, RemoveAt(p.items, at)))
      && Replay(rules, s, [Flagged(RemoveCmd(id), false)]).value.removed == s.removed[id := s.script.items[at]]
  {
    SameIds(p.idField, s.script.items, p.items);
    ReplayOfOne(rules, s, Flagged(RemoveCmd(id), false));
    SameCoresRemove(s.script.items, p.items, Find(IdsOf(p), id));
  }

  lemma MoveReplays(rules: Rules, s: State, p: Script, id: string, afterId: Option<string>)
    requires WellFormed(p) && SameScript(s.script, p) && MoveItem(p, id, afterId).Some?
    ensures Rebuilds(rules, s, [Flagged(MoveAfter(id, afterId), false)], MoveItem(p, id, afterId).value)
  {
    var at := Find(IdsOf(p), id);
    var a, b := RemoveAt(s.script.items, at), RemoveAt(p.items, at);
    SameIds(p.idField, s.script.items, p.items);
    SameCoresRemove(s.script.items, p.items, at);
    SameIds(p.idField, a, b);
    var to := AnchorAt(Ids(p.idField, b), afterId).value;
    SameCoresInsert(a, b, to, s.script.items[at], p.items[at]);
    assert MoveItem(s.script, id, afterId) == Some(WithItems(s.script, InsertAt(a, to, s.script.items[at])));
    ReplayOfOne(rules, s, Flagged(MoveAfter(id, afterId), false));
  }

  lemma SameCoresRemove(a: seq<Item>, b: seq<Item>, at: nat)
    requires SameCores(a, b) && at < |a|
    ensures SameCores(RemoveAt(a, at), RemoveAt(b, at))
  {
  }

  lemma SameCoresInsert(a: seq<Item>, b: seq<Item>, at: nat, x: Item, y: Item)
    requires SameCores(a, b) && at <= |a| && Core(x) == Core(y)
    ensures SameCores(InsertAt(a, at, x), InsertAt(b, at, y))
  {
  }

  /** The media an inserted item ends up with are those it already carries: none for a new identity,
      those of the removed anchor for the first part of a split. */
  ghost predicate MediaSettled(item: Item, removed: Option<Item>) {
    match removed
    case None => NoMedia(item)
    case Some(source) =>
      && ASSETS in item && item[ASSETS] == AssetsOf(source)
      && (END_FRAME in item <==> END_FRAME in source && !source[END_FRAME].Null?)
      && (END_FRAME in item ==> item[END_FRAME] == source[END_FRAME])
  }

  lemma MediaStays(item: Item, removed: Option<Item>)
    requires MediaSettled(item, removed)
    ensures WithMediaOf(item, removed) == item
  {
  }

  /** Whether the item can be inserted by a command as it is: a new id, and media that stay. */
  ghost predicate Insertable(s: State, afterId: Option<string>, item: Item, anew: bool) {
    var idField := s.script.idField;
    && AnchorAt(IdsOf(s.script), afterId).Some? && HasId(idField, item)
    && IdOf(idField, item) !in IdsOf(s.script) && IdOf(idField, item) != ""
    && MediaSettled(item, RemovedFor(s, IdOf(idField, item), anew))
  }

  function RemovedFor(s: State, id: string, anew: bool): Option<Item> {
    if id in s.removed && !anew then Some(s.removed[id]) else None
  }

  /** One insert command puts the item, with its markers derived, at its anchor. */
  lemma InsertResult(rules: Rules, s: State, afterId: Option<string>, item: Item, anew: bool)
    requires Insertable(s, afterId, item, anew)
    ensures var at := AnchorAt(IdsOf(s.script), afterId).value;
      var entered := AfterInsert(rules, s.script.idField, item);
      Replay(rules, s, [Flagged(InsertAfter(afterId, item), anew)]) ==
      Done(State(WithItems(s.script, InsertAt(s.script.items, at, entered)),
                 s.removed - {IdOf(s.script.idField, item)}))
  {
    MediaStays(item, RemovedFor(s, IdOf(s.script.idField, item), anew));
    ReplayOfOne(rules, s, Flagged(InsertAfter(afterId, item), anew));
  }

  /** Up to the markers, that is the item at its anchor. */
  lemma InsertReplays(rules: Rules, s: State, p: Script, afterId: Option<string>, item: Item, anew: bool)
    requires WellFormed(p) && SameScript(s.script, p) && Insertable(s, afterId, item, anew)
    ensures AnchorAt(IdsOf(p), afterId).Some?
    ensures Rebuilds(rules, s, [Flagged(InsertAfter(afterId, item), anew)],
                     WithItems(p, InsertAt(p.items, AnchorAt(IdsOf(p), afterId).value, item)))
  {
    var at := AnchorAt(IdsOf(s.script), afterId).value;
    SameIds(p.idField, s.script.items, p.items);
    InsertResult(rules, s, afterId, item, anew);
    SameCoresInsert(s.script.items, p.items, at, AfterInsert(rules, p.idField, item), item);
  }

  /** Position right after the item before `at`. */
  lemma AnchorBefore(ids: seq<string>, at: nat)
    requires Unique(ids) && at <= |ids|
    ensures AnchorAt(ids, if at > 0 then Some(ids[at - 1]) else None) == Some(at)
  {
    if at > 0 { FindUnique(ids, at - 1); }
  }

  /** A part that enters the script as a new identity. */
  ghost predicate NewPart(p: Script, item: Item) {
    && HasId(p.idField, item) && IdOf(p.idField, item) !in IdsOf(p) && IdOf(p.idField, item) != ""
    && MediaSettled(item, None)
  }

  /** Placing part `k` leaves the later parts new. */
  lemma PartsStayNew(p: Script, at: nat, parts: seq<Item>, k: nat)
    requires WellFormed(p) && k < |parts| && at < |p.items| && Unique(Ids(p.idField, parts))
    requires forall i | k <= i < |parts| :: NewPart(p, parts[i])
    ensures var p' := WithItems(p, InsertAt(p.items, at + 1, parts[k]));
      && WellFormed(p') && IdsOf(p')[at + 1] == IdOf(p.idField, parts[k])
      && (forall i | k + 1 <= i < |parts| :: NewPart(p', parts[i]))
  {
    InsertKeepsWellFormed(p, at + 1, parts[k]);
    IdsOfInsert(p.idField, p.items, at + 1, parts[k]);
    forall i | k + 1 <= i < |parts|
      ensures IdOf(p.idField, parts[i]) !in InsertAt(IdsOf(p), at + 1, IdOf(p.idField, parts[k]))
    {
      assert NewPart(p, parts[i]);
      assert Ids(p.idField, parts)[i] != Ids(p.idField, parts)[k];
    }
  }

  lemma ShiftPart(items: seq<Item>, at: nat, parts: seq<Item>, k: nat)
    requires k < |parts| && at < |items|
    ensures var r := InsertAt(items, at + 1, parts[k]);
      r[..at + 2] + parts[k + 1..] + r[at + 2..] == items[..at + 1] + parts[k..] + items[at + 1..]
  {
    var r := InsertAt(items, at + 1, parts[k]);
    assert r[..at + 2] == items[..at + 1] + [parts[k]] && r[at + 2..] == items[at + 1..];
    assert [parts[k]] + parts[k + 1..] == parts[k..];
  }

  /** The parts before the k-th are placed, the last of them at `at`, and the others are new. */
  ghost predicate Placed(p: Script, at: nat, parts: seq<Item>, k: nat) {
    && WellFormed(p) && 1 <= k <= |parts| && at < |p.items|
    && IdsOf(p)[at] == IdOf(p.idField, parts[k - 1])
    && (forall i | k <= i < |parts| :: NewPart(p, parts[i]))
    && Unique(Ids(p.idField, parts))
  }

  /** The script once the parts from the k-th on are in, too. */
  function WithRest(p: Script, at: nat, parts: seq<Item>, k: nat): Script
    requires at < |p.items| && k <= |parts|
  {
    WithItems(p, p.items[..at + 1] + parts[k..] + p.items[at + 1..])
  }

  lemma PlacedNext(p: Script, at: nat, parts: seq<Item>, k: nat)
    requires Placed(p, at, parts, k) && k < |parts|
    ensures Placed(WithItems(p, InsertAt(p.items, at + 1, parts[k])), at + 1, parts, k + 1)
  {
    PartsStayNew(p, at, parts, k);
  }

  /** Which parts are placed depends on ids only. */
  lemma PlacedTransfers(q: Script, p: Script, at: nat, parts: seq<Item>, k: nat)
    requires Placed(p, at, parts, k) && SameScript(q, p)
    ensures Placed(q, at, parts, k)
  {
    SameIds(p.idField, q.items, p.items);
    forall i | 0 <= i < |q.items| ensures HasId(q.idField, q.items[i]) {
      SameField(q.items[i], p.items[i], p.idField);
    }
  }

  /** The items with their markers derived. */
  function Entered(rules: Rules, idField: string, items: seq<Item>): (r: seq<Item>)
    ensures |r| == |items| && forall i | 0 <= i < |items| :: r[i] == AfterInsert(rules, idField, items[i])
  {
    seq(|items|, i requires 0 <= i < |items| => AfterInsert(rules, idField, items[i]))
  }

  /** The insertion of part `k` behind the part before it. */
  function PartCommand(idField: string, parts: seq<Item>, k: nat): Flagged
    requires 1 <= k < |parts|
  {
    Flagged(InsertAfter(Some(IdOf(idField, parts[k - 1])), parts[k]), true)
  }

  /** Inserting the parts from the k-th on behind the one before them puts them there, markers derived. */
  ghost predicate RestGoesIn(rules: Rules, s: State, at: nat, parts: seq<Item>, k: nat)
    requires at < |s.script.items| && 1 <= k <= |parts|
  {
    var idField := s.script.idField;
    var r := Replay(rules, s, PartCommands(idField, Some(IdOf(idField, parts[k - 1])), parts, k));
    r.Done? && r.value.script == WithRest(s.script, at, Entered(rules, idField, parts), k)
  }

  /** The further parts of a split go in one after the other behind the part before them. */
  lemma {:induction false} FurtherPartsResult(rules: Rules, s: State, at: nat, parts: seq<Item>, k: nat)
    requires Placed(s.script, at, parts, k)
    ensures RestGoesIn(rules, s, at, parts, k)
    decreases |parts| - k
  {
    if k == |parts| {
      NoMoreParts(rules, s, at, parts);
    } else {
      var s' := OnePartResult(rules, s, at, parts, k);
      FurtherPartsResult(rules, s', at + 1, parts, k + 1);
      OneMorePart(rules, s, s', at, parts, k);
    }
  }

  lemma NoMoreParts(rules: Rules, s: State, at: nat, parts: seq<Item>)
    requires at < |s.script.items| && parts != []
    ensures RestGoesIn(rules, s, at, parts, |parts|)
  {
    NothingToInsert(s.script.items, at + 1, Entered(rules, s.script.idField, parts));
  }

  lemma OneMorePart(rules: Rules, s: State, s': State, at: nat, parts: seq<Item>, k: nat)
    requires at < |s.script.items| && 1 <= k < |parts|
    requires Replay(rules, s, [PartCommand(s.script.idField, parts, k)]) == Done(s')
    requires s'.script == WithPart(rules, s.script, at, parts, k)
    requires RestGoesIn(rules, s', at + 1, parts, k + 1)
    ensures RestGoesIn(rules, s, at, parts, k)
  {
    var idField := s.script.idField;
    ShiftPart(s.script.items, at, Entered(rules, idField, parts), k);
    ReplayOfConcat(rules, s, [PartCommand(idField, parts, k)],
                   PartCommands(idField, Some(IdOf(idField, parts[k])), parts, k + 1));
  }

  /** Part `k` behind the item at `at`, markers derived. */
  function WithPart(rules: Rules, p: Script, at: nat, parts: seq<Item>, k: nat): Script
    requires at < |p.items| && k < |parts|
  {
    WithItems(p, InsertAt(p.items, at + 1, AfterInsert(rules, p.idField, parts[k])))
  }

  lemma OnePartResult(rules: Rules, s: State, at: nat, parts: seq<Item>, k: nat) returns (s': State)
    requires Placed(s.script, at, parts, k) && k < |parts|
    ensures Replay(rules, s, [PartCommand(s.script.idField, parts, k)]) == Done(s')
    ensures s'.script == WithPart(rules, s.script, at, parts, k)
    ensures Placed(s'.script, at + 1, parts, k + 1)
  {
    AnchorBefore(IdsOf(s.script), at + 1);
    InsertResult(rules, s, Some(IdOf(s.script.idField, parts[k - 1])), parts[k], true);
    s' := Replay(rules, s, [PartCommand(s.script.idField, parts, k)]).value;
    PlacedAfterPart(rules, s.script, at, parts, k);
  }

  lemma PlacedAfterPart(rules: Rules, p: Script, at: nat, parts: seq<Item>, k: nat)
    requires Placed(p, at, parts, k) && k < |parts|
    ensures Placed(WithPart(rules, p, at, parts, k), at + 1, parts, k + 1)
  {
    PlacedNext(p, at, parts, k);
    SameCoresInsert(p.items, p.items, at + 1, AfterInsert(rules, p.idField, parts[k]), parts[k]);
    PlacedTransfers(WithPart(rules, p, at, parts, k), WithItems(p, InsertAt(p.items, at + 1, parts[k])),
                    at + 1, parts, k + 1);
  }

  lemma NothingToInsert(items: seq<Item>, at: nat, parts: seq<Item>)
    requires at <= |items|
    ensures items[..at] + parts[|parts|..] + items[at..] == items
  {
  }

  lemma AnchorPartIsSettled(idField: string, part: Item, anchor: Item, copy: Item, id: string)
    requires idField in ID_FIELDS && Core(anchor) == Core(copy)
    ensures MediaSettled(AnchorPart(idField, part, anchor, id), Some(copy))
  {
    SameField(anchor, copy, ASSETS);
    SameField(anchor, copy, END_FRAME);
  }

  /** Once the anchor is gone its first part takes its place. */
  lemma AnchorPartResult(rules: Rules, s: State, p: Script, at: nat, parts: seq<Item>) returns (s': State)
    requires WellFormed(p) && SameScript(s.script, p) && at < |p.items| && |parts| >= 1 && IdsOf(p)[at] != ""
    ensures Replay(rules, s, SplitHead(p, at, parts)) == Done(s')
    ensures var entered := AfterInsert(rules, p.idField, SplitParts(p, at, parts)[0]);
      s'.script == WithItems(s.script, InsertAt(RemoveAt(s.script.items, at), at, entered))
  {
    var id := IdsOf(p)[at];
    var part := SplitParts(p, at, parts)[0];
    var previous := if at > 0 then Some(IdsOf(p)[at - 1]) else None;
    var s1 := RemoveResult(rules, s, p, at);
    AnchorIsInsertable(s1, s.script, p, at, parts);
    s' := TwoCommands(rules, s, Flagged(RemoveCmd(id), false), s1, previous, part);
  }

  /** Removing the item at `at` remembers it. */
  lemma RemoveResult(rules: Rules, s: State, p: Script, at: nat) returns (s1: State)
    requires WellFormed(p) && SameScript(s.script, p) && at < |p.items|
    ensures s1
            == State(WithItems(s.script, RemoveAt(s.script.items, at)), s.removed[IdsOf(p)[at] := s.script.items[at]])
    ensures Replay(rules, s, [Flagged(RemoveCmd(IdsOf(p)[at]), false)]) == Done(s1)
  {
    SameIds(p.idField, s.script.items, p.items);
    FindUnique(IdsOf(p), at);
    ReplayOfOne(rules, s, Flagged(RemoveCmd(IdsOf(p)[at]), false));
    s1 := Replay(rules, s, [Flagged(RemoveCmd(IdsOf(p)[at]), false)]).value;
  }

  lemma TwoCommands(rules: Rules, s: State, first: Flagged, s1: State, previous: Option<string>, part: Item)
    returns (s': State)
    requires Replay(rules, s, [first]) == Done(s1) && Insertable(s1, previous, part, false)
    ensures Replay(rules, s, [first, Flagged(InsertAfter(previous, part), false)]) == Done(s')
    ensures var at := AnchorAt(IdsOf(s1.script), previous).value;
      var entered := AfterInsert(rules, s1.script.idField, part);
      s'.script == WithItems(s1.script, InsertAt(s1.script.items, at, entered))
  {
    var second := Flagged(InsertAfter(previous, part), false);
    InsertResult(rules, s1, previous, part, false);
    ReplayOfConcat(rules, s, [first], [second]);
    assert [first] + [second] == [first, second];
    s' := Replay(rules, s1, [second]).value;
  }

  lemma AnchorIsInsertable(s1: State, q: Script, p: Script, at: nat, parts: seq<Item>)
    requires WellFormed(p) && SameScript(q, p) && at < |p.items| && |parts| >= 1 && IdsOf(p)[at] != ""
    requires s1.script == WithItems(q, RemoveAt(q.items, at))
    requires IdsOf(p)[at] in s1.removed && s1.removed[IdsOf(p)[at]] == q.items[at]
    ensures var previous := if at > 0 then Some(IdsOf(p)[at - 1]) else None;
      && Insertable(s1, previous, SplitParts(p, at, parts)[0], false)
      && AnchorAt(IdsOf(s1.script), previous) == Some(at)
  {
    var rest := WithItems(p, RemoveAt(p.items, at));
    RemoveKeepsWellFormed(p, at);
    PartsAreNew(p, at, parts);
    SameCoresRemove(q.items, p.items, at);
    SameIds(p.idField, s1.script.items, rest.items);
    IdsOfRemove(p.idField, p.items, at);
    AnchorBefore(IdsOf(rest), at);
    AnchorPartIsSettled(p.idField, parts[0], p.items[at], q.items[at], IdsOf(p)[at]);
  }

  /** With the first part in place the further parts are still new, and adding them completes the split. */
  lemma FurtherPartsComplete(p: Script, at: nat, parts: seq<Item>)
    requires WellFormed(p) && at < |p.items| && |parts| >= 1
    ensures var block := SplitParts(p, at, parts);
      var p2 := WithItems(p, InsertAt(RemoveAt(p.items, at), at, block[0]));
      && WellFormed(p2) && IdsOf(p2)[at] == IdOf(p.idField, block[0])
      && (forall i | 1 <= i < |block| :: NewPart(p2, block[i]))
      && p2.items[..at + 1] + block[1..] + p2.items[at + 1..] == p.items[..at] + block + p.items[at + 1..]
  {
    var block, rest := SplitParts(p, at, parts), RemoveAt(p.items, at);
    PartsAreNew(p, at, parts);
    RemoveKeepsWellFormed(p, at);
    InsertKeepsWellFormed(WithItems(p, rest), at, block[0]);
    IdsOfInsert(p.idField, rest, at, block[0]);
    forall i | 1 <= i < |block|
      ensures IdOf(p.idField, block[i]) !in InsertAt(Ids(p.idField, rest), at, IdOf(p.idField, block[0]))
    {
      assert Ids(p.idField, block)[i] != Ids(p.idField, block)[0];
    }
    SplitItems(p.items, at, block);
  }

  lemma SplitItems(items: seq<Item>, at: nat, block: seq<Item>)
    requires at < |items| && block != []
    ensures var r := InsertAt(RemoveAt(items, at), at, block[0]);
      r[..at + 1] + block[1..] + r[at + 1..] == items[..at] + block + items[at + 1..]
  {
    var r := InsertAt(RemoveAt(items, at), at, block[0]);
    assert r[..at + 1] == items[..at] + [block[0]] && r[at + 1..] == items[at + 1..];
    assert [block[0]] + block[1..] == block;
  }

  lemma SliceOfBlock<T>(a: seq<T>, block: seq<T>, c: seq<T>)
    ensures (a + block + c)[|a|..|a| + |block|] == block
  {
  }

  /** The first two commands of a split: the anchor goes, its first part takes its place. */
  function SplitHead(p: Script, at: nat, parts: seq<Item>): seq<Flagged>
    requires at < |p.items| && |parts| >= 1
  {
    var previous := if at > 0 then Some(IdsOf(p)[at - 1]) else None;
    [Flagged(RemoveCmd(IdsOf(p)[at]), false), Flagged(InsertAfter(previous, SplitParts(p, at, parts)[0]), false)]
  }

  /** The insertions of the further parts. */
  function SplitTail(p: Script, at: nat, parts: seq<Item>): seq<Flagged>
    requires at < |p.items| && |parts| >= 1
  {
    var block := SplitParts(p, at, parts);
    PartCommands(p.idField, Some(IdOf(p.idField, block[0])), block, 1)
  }

  /** The commands of a split: remove and first insert, then the further parts. */
  lemma SplitCommands(p: Script, id: string, parts: seq<Item>)
    requires ApplyOp(p, Split(id, parts)).Done?
    ensures var at := Find(IdsOf(p), id);
      Compile(p, Split(id, parts), ApplyOp(p, Split(id, parts)).value) ==
      SplitHead(p, at, parts) + SplitTail(p, at, parts)
  {
    var at := Find(IdsOf(p), id);
    var after := ApplyOp(p, Split(id, parts)).value;
    var block := SplitParts(p, at, parts);
    var previous := if at > 0 then Some(IdsOf(p)[at - 1]) else None;
    SliceOfBlock(p.items[..at], block, p.items[at + 1..]);
    FirstTwoCommands(p.idField, id, previous, block);
  }

  lemma FirstTwoCommands(idField: string, id: string, previous: Option<string>, block: seq<Item>)
    requires block != []
    ensures [Flagged(RemoveCmd(id), false)] + PartCommands(idField, previous, block, 0) ==
            [Flagged(RemoveCmd(id), false), Flagged(InsertAfter(previous, block[0]), false)] +
            PartCommands(idField, Some(IdOf(idField, block[0])), block, 1)
  {
    NextPart(idField, previous, block, 0, [Flagged(RemoveCmd(id), false)]);
  }

  /** The commands put the parts, markers derived, in the place of the item at `at`. */
  ghost predicate Splits(rules: Rules, s: State, p: Script, at: nat, parts: seq<Item>, cmds: seq<Flagged>)
    requires at < |p.items| && |s.script.items| == |p.items| && |parts| >= 1
  {
    var block := Entered(rules, p.idField, SplitParts(p, at, parts));
    var r := Replay(rules, s, cmds);
    r.Done? && r.value.script == WithItems(s.script, s.script.items[..at] + block + s.script.items[at + 1..])
  }

  /** What the commands of a split make of the candidate. */
  lemma SplitResult(rules: Rules, s: State, p: Script, id: string, parts: seq<Item>)
    requires WellFormed(p) && SameScript(s.script, p) && id != "" && ApplyOp(p, Split(id, parts)).Done?
    ensures var cmds := Compile(p, Split(id, parts), ApplyOp(p, Split(id, parts)).value);
      Splits(rules, s, p, Find(IdsOf(p), id), parts, cmds)
  {
    var at := Find(IdsOf(p), id);
    SplitCommandsResult(rules, s, p, at, parts);
    SplitCommands(p, id, parts);
  }

  lemma SplitCommandsResult(rules: Rules, s: State, p: Script, at: nat, parts: seq<Item>)
    requires WellFormed(p) && SameScript(s.script, p) && at < |p.items| && |parts| >= 1 && IdsOf(p)[at] != ""
    ensures Splits(rules, s, p, at, parts, SplitHead(p, at, parts) + SplitTail(p, at, parts))
  {
    var s' := SplitSteps(rules, s, p, at, parts);
    HeadThenTail(rules, s, s', p, at, parts);
  }

  /** The first part in place of the anchor, then the further parts behind it. */
  lemma SplitSteps(rules: Rules, s: State, p: Script, at: nat, parts: seq<Item>) returns (s': State)
    requires WellFormed(p) && SameScript(s.script, p) && at < |p.items| && |parts| >= 1 && IdsOf(p)[at] != ""
    ensures Replay(rules, s, SplitHead(p, at, parts)) == Done(s')
    ensures var entered := AfterInsert(rules, p.idField, SplitParts(p, at, parts)[0]);
      s'.script == WithItems(s.script, InsertAt(RemoveAt(s.script.items, at), at, entered))
    ensures RestGoesIn(rules, s', at, SplitParts(p, at, parts), 1)
  {
    s' := AnchorPartResult(rules, s, p, at, parts);
    AnchorPartIsPlaced(s'.script, rules, s.script, p, at, parts);
    FurtherPartsResult(rules, s', at, SplitParts(p, at, parts), 1);
  }

  lemma HeadThenTail(rules: Rules, s: State, s': State, p: Script, at: nat, parts: seq<Item>)
    requires at < |p.items| && |s.script.items| == |p.items| && |parts| >= 1 && s.script.idField == p.idField
    requires Replay(rules, s, SplitHead(p, at, parts)) == Done(s')
    requires var entered := AfterInsert(rules, p.idField, SplitParts(p, at, parts)[0]);
      s'.script == WithItems(s.script, InsertAt(RemoveAt(s.script.items, at), at, entered))
    requires RestGoesIn(rules, s', at, SplitParts(p, at, parts), 1)
    ensures Splits(rules, s, p, at, parts, SplitHead(p, at, parts) + SplitTail(p, at, parts))
  {
    AllPartsIn(s.script, s'.script, at, Entered(rules, p.idField, SplitParts(p, at, parts)));
    ReplayOfConcat(rules, s, SplitHead(p, at, parts), SplitTail(p, at, parts));
  }

  lemma AllPartsIn(q: Script, q': Script, at: nat, block: seq<Item>)
    requires at < |q.items| && block != []
    requires q' == WithItems(q, InsertAt(RemoveAt(q.items, at), at, block[0]))
    ensures WithRest(q', at, block, 1) == WithItems(q, q.items[..at] + block + q.items[at + 1..])
  {
    SplitItems(q.items, at, block);
  }

  lemma AnchorPartIsPlaced(q': Script, rules: Rules, q: Script, p: Script, at: nat, parts: seq<Item>)
    requires WellFormed(p) && SameScript(q, p) && at < |p.items| && |parts| >= 1
    requires var entered := AfterInsert(rules, p.idField, SplitParts(p, at, parts)[0]);
      q' == WithItems(q, InsertAt(RemoveAt(q.items, at), at, entered))
    ensures Placed(q', at, SplitParts(p, at, parts), 1)
  {
    var block := SplitParts(p, at, parts);
    FurtherPartsComplete(p, at, parts);
    PartsAreNew(p, at, parts);
    SameCoresRemove(q.items, p.items, at);
    SameCoresInsert(RemoveAt(q.items, at), RemoveAt(p.items, at), at,
                    AfterInsert(rules, p.idField, block[0]), block[0]);
    PlacedTransfers(q', WithItems(p, InsertAt(RemoveAt(p.items, at), at, block[0])), at, block, 1);
  }

  lemma SplitReplays(rules: Rules, s: State, p: Script, id: string, parts: seq<Item>)
    requires WellFormed(p) && SameScript(s.script, p) && id != ""
    requires ApplyOp(p, Split(id, parts)).Done?
    ensures var after := ApplyOp(p, Split(id, parts)).value;
      Rebuilds(rules, s, Compile(p, Split(id, parts), after), after)
  {
    var at := Find(IdsOf(p), id);
    var block := SplitParts(p, at, parts);
    SplitResult(rules, s, p, id, parts);
    SameCoresReplace(s.script.items, p.items, at, Entered(rules, p.idField, block), block);
  }

  lemma SameCoresReplace(a: seq<Item>, b: seq<Item>, at: nat, x: seq<Item>, y: seq<Item>)
    requires SameCores(a, b) && SameCores(x, y) && at < |a|
    ensures SameCores(a[..at] + x + a[at + 1..], b[..at] + y + b[at + 1..])
  {
  }

  lemma InsertedItem(items: seq<Item>, at: nat, item: Item)
    requires at <= |items|
    ensures InsertAt(items, at, item)[at] == item
  {
  }

  /** An insertion is compiled into the insertion of the item the preview got. */
  lemma InsertCommand(p: Script, afterId: Option<string>, item: Item)
    requires WellFormed(p) && ApplyOp(p, Insert(afterId, item)).Done?
    ensures var entered := FreshItem(p.idField, item, NewItemId(p));
      && Compile(p, Insert(afterId, item), ApplyOp(p, Insert(afterId, item)).value) ==
         [Flagged(InsertAfter(afterId, entered), true)]
      && HasId(p.idField, entered) && IdOf(p.idField, entered) == NewItemId(p)
  {
    InsertedItem(p.items, AnchorAt(IdsOf(p), afterId).value, FreshItem(p.idField, item, NewItemId(p)));
  }

  /** What the command of an insertion makes of the candidate. */
  lemma InsertOpResult(rules: Rules, s: State, p: Script, afterId: Option<string>, item: Item)
    requires WellFormed(p) && SameScript(s.script, p) && ApplyOp(p, Insert(afterId, item)).Done?
    ensures var at := AnchorAt(IdsOf(p), afterId).value;
      var entered := AfterInsert(rules, p.idField, FreshItem(p.idField, item, NewItemId(p)));
      var r := Replay(rules, s, Compile(p, Insert(afterId, item), ApplyOp(p, Insert(afterId, item)).value));
      && at <= |s.script.items| && r.Done?
      && r.value.script == WithItems(s.script, InsertAt(s.script.items, at, entered))
  {
    InsertCommand(p, afterId, item);
    SameIds(p.idField, s.script.items, p.items);
    InsertResult(rules, s, afterId, FreshItem(p.idField, item, NewItemId(p)), true);
  }

  lemma InsertOpReplays(rules: Rules, s: State, p: Script, afterId: Option<string>, item: Item)
    requires WellFormed(p) && SameScript(s.script, p) && ApplyOp(p, Insert(afterId, item)).Done?
    ensures var after := ApplyOp(p, Insert(afterId, item)).value;
      Rebuilds(rules, s, Compile(p, Insert(afterId, item), after), after)
  {
    var entered := FreshItem(p.idField, item, NewItemId(p));
    InsertOpResult(rules, s, p, afterId, item);
    SameCoresInsert(s.script.items, p.items, AnchorAt(IdsOf(p), afterId).value,
                    AfterInsert(rules, p.idField, entered), entered);
  }

  /** The commands of one operation do to the candidate what the operation did to the preview. */
  lemma OpReplays(rules: Rules, s: State, p: Script, op: PatchOp)
    requires WellFormed(p) && SameScript(s.script, p) && Admissible(op) && ApplyOp(p, op).Done?
    ensures var after := ApplyOp(p, op).value;
      Rebuilds(rules, s, Compile(p, op, after), after)
  {
    match op
    case Update(id, fields) => UpdateReplays(rules, s, p, id, fields);
    case Insert(afterId, item) => InsertOpReplays(rules, s, p, afterId, item);
    case Move(id, afterId) => MoveReplays(rules, s, p, id, afterId);
    case Remove(id) => RemoveReplays(rules, s, p, id);
    case Split(id, parts) => SplitReplays(rules, s, p, id, parts);
  }

  /** Compiler correctness: whenever the preview accepts the operations, replaying the projected
      commands on the original script succeeds and gives the preview's items, whatever the editor's
      rules for the derived markers; ids stay unique. */
  lemma {:induction false} ReplayRebuildsPreview(rules: Rules, s: State, p: Script, ops: seq<PatchOp>)
    requires WellFormed(p) && SameScript(s.script, p)
    ensures Preview(p, ops).Done? && (forall op <- ops :: Admissible(op)) ==>
      && Blocks(p, ops).Done? && WellFormed(Preview(p, ops).value)
      && Rebuilds(rules, s, Flatten(Blocks(p, ops).value), Preview(p, ops).value)
    decreases |ops|
  {
    if ops != [] && Preview(p, ops).Done? && forall op <- ops :: Admissible(op) {
      var next := ApplyOp(p, ops[0]).value;
      var cmds := Compile(p, ops[0], next);
      OpReplays(rules, s, p, ops[0]);
      ApplyKeepsWellFormed(p, ops[0]);
      ReplayRebuildsPreview(rules, Replay(rules, s, cmds).value, next, ops[1..]);
      var rest := Blocks(next, ops[1..]).value;
      FlattenCons(cmds, rest);
      RebuildsInTwo(rules, s, cmds, next, Flatten(rest), Preview(next, ops[1..]).value);
    }
  }

  lemma FlattenCons<T>(head: seq<T>, rest: seq<seq<T>>)
    ensures Flatten([head] + rest) == head + Flatten(rest)
  {
    assert ([head] + rest)[1..] == rest;
  }

  // ----- Blame -----

  /** First command of operation `i`. */
  function Start(ops: seq<PatchOp>, i: nat): nat
    requires i <= |ops|
  {
    if i == 0 then 0 else BlockSize(ops[0]) + Start(ops[1..], i - 1)
  }

  /** Each operation owns one block of consecutive commands, the blocks in the order of the operations. */
  lemma {:induction false} SourcesAreBlocks(ops: seq<PatchOp>, index: nat, k: nat, i: nat)
    requires k < |Sources(ops, index)| && i < |ops|
    ensures |Sources(ops, index)| == Start(ops, |ops|)
    ensures index <= Sources(ops, index)[k] < index + |ops|
    ensures Sources(ops, index)[k] == index + i <==> Start(ops, i) <= k < Start(ops, i + 1)
    ensures Start(ops, i + 1) == Start(ops, i) + BlockSize(ops[i])
    decreases |ops|
  {
    var n, rest := BlockSize(ops[0]), Sources(ops[1..], index + 1);
    StartIsMonotone(ops, i);
    if |ops| > 1 {
      SourcesAreBlocks(ops[1..], index + 1, if k >= n then k - n else 0, if i > 0 then i - 1 else 0);
    } else {
      assert rest == [];
    }
  }

  lemma {:induction false} StartIsMonotone(ops: seq<PatchOp>, i: nat)
    requires i < |ops|
    ensures Start(ops, i + 1) == Start(ops, i) + BlockSize(ops[i])
    ensures i > 0 ==> Start(ops, i) >= BlockSize(ops[0])
    decreases |ops|
  {
    if i > 0 { StartIsMonotone(ops[1..], i - 1); }
  }

  lemma BlockLength(p: Script, op: PatchOp)
    requires ApplyOp(p, op).Done?
    ensures |Compile(p, op, ApplyOp(p, op).value)| == BlockSize(op)
  {
  }

  /** The preview after the first `i` operations. */
  function Before(p: Script, ops: seq<PatchOp>, i: nat): Edit<Script>
    requires i <= |ops|
  {
    Preview(p, ops[..i])
  }

  /** Block `i` is what was compiled from operation `i`, between the previews before and after it. */
  lemma {:induction false} BlockIsCompiled(p: Script, ops: seq<PatchOp>, i: nat)
    requires Preview(p, ops).Done? && i < |ops|
    ensures Blocks(p, ops).Done? && |Blocks(p, ops).value| == |ops|
    ensures Before(p, ops, i).Done? && ApplyOp(Before(p, ops, i).value, ops[i]).Done?
    ensures var before := Before(p, ops, i).value;
      Blocks(p, ops).value[i] == Compile(before, ops[i], ApplyOp(before, ops[i]).value)
    decreases |ops|
  {
    var next := ApplyOp(p, ops[0]).value;
    if |ops| > 1 {
      BlockIsCompiled(next, ops[1..], if i > 0 then i - 1 else 0);
    }
    if i > 0 { assert ops[..i][1..] == ops[1..][..i - 1]; }
  }

  /** For each element of the flattened blocks the number of its block. */
  function Tags<T>(blocks: seq<seq<T>>, index: nat): (r: seq<nat>)
    ensures |r| == |Flatten(blocks)|
  {
    if blocks == [] then [] else Repeat(|blocks[0]|, index) + Tags(blocks[1..], index + 1)
  }

  lemma {:induction false} TagNamesBlock<T>(blocks: seq<seq<T>>, index: nat, k: nat)
    requires k < |Flatten(blocks)|
    ensures index <= Tags(blocks, index)[k] < index + |blocks|
    ensures Flatten(blocks)[k] in blocks[Tags(blocks, index)[k] - index]
    decreases |blocks|
  {
    var n := |blocks[0]|;
    assert Flatten(blocks) == blocks[0] + Flatten(blocks[1..]);
    assert Tags(blocks, index) == Repeat(n, index) + Tags(blocks[1..], index + 1);
    if k >= n {
      TagNamesBlock(blocks[1..], index + 1, k - n);
    }
  }

  lemma {:induction false} SourcesAreTags(p: Script, ops: seq<PatchOp>, index: nat)
    requires Blocks(p, ops).Done?
    ensures Sources(ops, index) == Tags(Blocks(p, ops).value, index)
    decreases |ops|
  {
    if ops != [] {
      var next := ApplyOp(p, ops[0]).value;
      BlockLength(p, ops[0]);
      SourcesAreTags(next, ops[1..], index + 1);
      var rest := Blocks(next, ops[1..]).value;
      assert ([Compile(p, ops[0], next)] + rest)[1..] == rest;
    }
  }

  /** A problem the editor reports; `operation` is an index into its commands. */
  datatype Problem = Problem(operation: Option<int>, locations: seq<seq<Step>>)

  function PublicIndex(operation: Option<int>, sources: seq<nat>): Option<int> {
    if operation.Some? && 0 <= operation.value < |sources| then Some(sources[operation.value]) else operation
  }

  function RemapLocation(path: seq<Step>, public: Option<int>): seq<Step> {
    if |path| >= 2 && path[0] == Key("operations") && path[1].Index? && public.Some?
    then path[1 := Index(public.value)]
    else path
  }

  method RemapOperationIndexes(problems: seq<Problem>, sources: seq<nat>) returns (remapped: seq<Problem>)
    ensures |remapped| == |problems|
    ensures forall i | 0 <= i < |problems| ::
      var public := PublicIndex(problems[i].operation, sources);
      && remapped[i].operation == public && |remapped[i].locations| == |problems[i].locations|
      && forall j | 0 <= j < |problems[i].locations| ::
           remapped[i].locations[j] == RemapLocation(problems[i].locations[j], public)
  {
    remapped := [];
    for n := 0 to |problems|
      invariant |remapped| == n
      invariant forall i | 0 <= i < n ::
        var public := PublicIndex(problems[i].operation, sources);
        && remapped[i].operation == public && |remapped[i].locations| == |problems[i].locations|
        && forall j | 0 <= j < |problems[i].locations| ::
             remapped[i].locations[j] == RemapLocation(problems[i].locations[j], public)
    {
      var public := PublicIndex(problems[n].operation, sources);
      var locations := [];
      for m := 0 to |problems[n].locations|
        invariant |locations| == m
        invariant forall j | 0 <= j < m :: locations[j] == RemapLocation(problems[n].locations[j], public)
      {
        locations := locations + [RemapLocation(problems[n].locations[m], public)];
      }
      remapped := remapped + [Problem(public, locations)];
    }
  }

  /** A problem at command `k` is remapped to the operation whose compilation contains that command. */
  lemma RemappedProblemNamesItsOperation(p: Script, ops: seq<PatchOp>, k: nat, detail: seq<Step>)
    requires Preview(p, ops).Done?
    requires Blocks(p, ops).Done? && k < |Flatten(Blocks(p, ops).value)|
    ensures |Sources(ops, 0)| == |Flatten(Blocks(p, ops).value)|
    ensures var i := Sources(ops, 0)[k];
      && i < |ops| && Before(p, ops, i).Done? && ApplyOp(Before(p, ops, i).value, ops[i]).Done?
      && (var before := Before(p, ops, i).value;
          Flatten(Blocks(p, ops).value)[k] in Compile(before, ops[i], ApplyOp(before, ops[i]).value))
      && PublicIndex(Some(k), Sources(ops, 0)) == Some(i)
      && RemapLocation([Key("operations"), Index(k)] + detail, Some(i)) == [Key("operations"), Index(i)] + detail
  {
    CommandComesFrom(p, ops, k);
    RemapFirstIndex(k, Sources(ops, 0)[k], detail);
  }

  lemma CommandComesFrom(p: Script, ops: seq<PatchOp>, k: nat)
    requires Preview(p, ops).Done? && Blocks(p, ops).Done? && k < |Flatten(Blocks(p, ops).value)|
    ensures |Sources(ops, 0)| == |Flatten(Blocks(p, ops).value)|
    ensures var i := Sources(ops, 0)[k];
      && i < |ops| && Before(p, ops, i).Done? && ApplyOp(Before(p, ops, i).value, ops[i]).Done?
      && var before := Before(p, ops, i).value;
         Flatten(Blocks(p, ops).value)[k] in Compile(before, ops[i], ApplyOp(before, ops[i]).value)
  {
    SourcesAreTags(p, ops, 0);
    TagNamesBlock(Blocks(p, ops).value, 0, k);
    BlocksPerOperation(p, ops);
    BlockIsCompiled(p, ops, Sources(ops, 0)[k]);
  }

  lemma {:induction false} BlocksPerOperation(p: Script, ops: seq<PatchOp>)
    requires Blocks(p, ops).Done?
    ensures |Blocks(p, ops).value| == |ops|
    decreases |ops|
  {
    if ops != [] {
      BlocksPerOperation(ApplyOp(p, ops[0]).value, ops[1..]);
    }
  }

  lemma RemapFirstIndex(k: nat, i: nat, detail: seq<Step>)
    ensures RemapLocation([Key("operations"), Index(k)] + detail, Some(i)) == [Key("operations"), Index(i)] + detail
  {
  }

  // ----- The compiler itself -----

  /** The commands with the insert positions that were marked as new identities. */
  function Flag(cmds: seq<Command>, anew: set<nat>): (r: seq<Flagged>)
    ensures |r| == |cmds|
  {
    seq(|cmds|, i requires 0 <= i < |cmds| => Flagged(cmds[i], i in anew))
  }

  lemma FlagAppend(cmds: seq<Command>, anew: set<nat>, cmd: Command, mark: bool)
    requires forall i <- anew :: i < |cmds|
    ensures Flag(cmds + [cmd], if mark then anew + {|cmds|} else anew) == Flag(cmds, anew) + [Flagged(cmd, mark)]
  {
  }

  lemma {:induction false} PreviewStep(p: Script, ops: seq<PatchOp>, op: PatchOp)
    requires Preview(p, ops).Done?
    ensures Preview(p, ops + [op]) == ApplyOp(Preview(p, ops).value, op)
    decreases |ops|
  {
    assert (ops + [op])[1..] == if ops == [] then [] else ops[1..] + [op];
    if ops != [] { PreviewStep(ApplyOp(p, ops[0]).value, ops[1..], op); }
  }

  lemma {:induction false} BlocksStep(p: Script, ops: seq<PatchOp>, op: PatchOp, before: Script, after: Script)
    requires Preview(p, ops) == Done(before) && ApplyOp(before, op) == Done(after)
    ensures Blocks(p, ops).Done?
    ensures Blocks(p, ops + [op]) == Done(Blocks(p, ops).value + [Compile(before, op, after)])
    decreases |ops|
  {
    if ops == [] {
      BlocksOfCons(p, op, []);
      EmptyConcat(op);
      EmptyConcat(Compile(before, op, after));
    } else {
      var next := ApplyOp(p, ops[0]).value;
      BlocksStep(next, ops[1..], op, before, after);
      BlocksOfCons(p, ops[0], ops[1..]);
      BlocksOfCons(p, ops[0], ops[1..] + [op]);
      FirstAndLast(ops, op);
      ConsAppend(Compile(p, ops[0], next), Blocks(next, ops[1..]).value, Compile(before, op, after));
    }
  }

  lemma EmptyConcat<T>(x: T)
    ensures [x] + [] == [] + [x] == [x]
  {
  }

  lemma FirstAndLast<T>(s: seq<T>, last: T)
    requires s != []
    ensures s == [s[0]] + s[1..] && s + [last] == [s[0]] + (s[1..] + [last])
  {
  }

  lemma ConsAppend<T>(first: T, rest: seq<T>, last: T)
    ensures [first] + (rest + [last]) == [first] + rest + [last]
  {
  }

  lemma BlocksOfCons(p: Script, op: PatchOp, rest: seq<PatchOp>)
    requires ApplyOp(p, op).Done? && Blocks(ApplyOp(p, op).value, rest).Done?
    ensures var next := ApplyOp(p, op).value;
      Blocks(p, [op] + rest) == Done([Compile(p, op, next)] + Blocks(next, rest).value)
  {
    assert ([op] + rest)[1..] == rest;
  }

  lemma {:induction false} FlattenAppend<T>(blocks: seq<seq<T>>, last: seq<T>)
    ensures Flatten(blocks + [last]) == Flatten(blocks) + last
  {
    if blocks == [] {
      assert [last][1..] == [] && blocks + [last] == [last];
      assert Flatten([last]) == last + Flatten<T>([]);
    } else {
      FlattenAppend(blocks[1..], last);
      assert (blocks + [last])[1..] == blocks[1..] + [last];
    }
  }

  lemma {:induction false} SourcesStep(ops: seq<PatchOp>, op: PatchOp, index: nat)
    ensures Sources(ops + [op], index) == Sources(ops, index) + Repeat(BlockSize(op), index + |ops|)
    decreases |ops|
  {
    assert (ops + [op])[1..] == if ops == [] then [] else ops[1..] + [op];
    if ops != [] { SourcesStep(ops[1..], op, index + 1); }
  }

  /** The three lists the projection builds: commands, the operation each comes from, and the positions
      of the inserts marked as new identities. */
  datatype Projection = Projection(commands: seq<Command>, sources: seq<nat>, anew: set<nat>) {
    ghost predicate Valid() {
      |sources| == |commands| && forall i <- anew :: i < |commands|
    }

    function Flags(): seq<Flagged> {
      Flag(commands, anew)
    }

    function Append(cmd: Command, source: nat, mark: bool): Projection {
      Projection(commands + [cmd], sources + [source], if mark then anew + {|commands|} else anew)
    }

    lemma AppendAdds(cmd: Command, source: nat, mark: bool)
      requires Valid()
      ensures var r := Append(cmd, source, mark);
        r.Valid() && r.Flags() == Flags() + [Flagged(cmd, mark)] && r.sources == sources + [source]
    {
      FlagAppend(commands, anew, cmd, mark);
    }
  }

  /** The block of an operation added by a projection step. */
  ghost predicate Adds(before: Projection, after: Projection, block: seq<Flagged>, source: nat) {
    && after.Valid() && after.Flags() == before.Flags() + block
    && after.sources == before.sources + Repeat(|block|, source)
  }

  lemma AppendAddsBlock(p: Projection, cmd: Command, source: nat, mark: bool)
    requires p.Valid()
    ensures Adds(p, p.Append(cmd, source, mark), [Flagged(cmd, mark)], source)
  {
    p.AppendAdds(cmd, source, mark);
  }

  lemma AddsTransitively(p: Projection, q: Projection, r: Projection, a: seq<Flagged>, b: seq<Flagged>, source: nat)
    requires Adds(p, q, a, source) && Adds(q, r, b, source)
    ensures Adds(p, r, a + b, source)
  {
  }

  lemma NextPart(idField: string, afterId: Option<string>, parts: seq<Item>, k: nat, done: seq<Flagged>)
    requires k < |parts|
    ensures done + PartCommands(idField, afterId, parts, k) ==
            done + [Flagged(InsertAfter(afterId, parts[k]), k > 0)] +
            PartCommands(idField, Some(IdOf(idField, parts[k])), parts, k + 1)
  {
  }

  /** The inserts that re-create the parts of a split behind `previous`. */
  method ProjectParts(start: Projection, idField: string, previous: Option<string>, parts: seq<Item>, source: nat)
    returns (p: Projection)
    requires start.Valid()
    ensures Adds(start, p, PartCommands(idField, previous, parts, 0), source)
  {
    p := start;
    var afterId := previous;
    var k := 0;
    ghost var done: seq<Flagged> := [];
    while k < |parts|
      invariant 0 <= k <= |parts| && p.Valid()
      invariant Adds(start, p, done, source)
      invariant done + PartCommands(idField, afterId, parts, k) == PartCommands(idField, previous, parts, 0)
    {
      var cmd := InsertAfter(afterId, parts[k]);
      AppendAddsBlock(p, cmd, source, k > 0);
      AddsTransitively(start, p, p.Append(cmd, source, k > 0), done, [Flagged(cmd, k > 0)], source);
      p := p.Append(cmd, source, k > 0);
      NextPart(idField, afterId, parts, k, done);
      done := done + [Flagged(cmd, k > 0)];
      afterId := Some(IdOf(idField, parts[k]));
      k := k + 1;
    }
  }

  method ProjectSplit(start: Projection, before: Script, op: PatchOp, after: Script, index: nat)
    returns (p: Projection)
    requires start.Valid() && op.Split? && ApplyOp(before, op) == Done(after)
    ensures Adds(start, p, Compile(before, op, after), index)
  {
    var at := Find(IdsOf(before), op.id);
    var previous := if at > 0 then Some(IdsOf(before)[at - 1]) else None;
    var generated := after.items[at..at + |op.parts|];
    AppendAddsBlock(start, RemoveCmd(op.id), index, false);
    var removed := start.Append(RemoveCmd(op.id), index, false);
    p := ProjectParts(removed, before.idField, previous, generated, index);
    AddsTransitively(start, removed, p, [Flagged(RemoveCmd(op.id), false)],
                     PartCommands(before.idField, previous, generated, 0), index);
  }

  /** Adds the commands of one operation that turned `before` into `after`. */
  method ProjectOperation(start: Projection, before: Script, op: PatchOp, after: Script, index: nat)
    returns (p: Projection)
    requires start.Valid() && ApplyOp(before, op) == Done(after)
    ensures Adds(start, p, Compile(before, op, after), index)
  {
    if op.Split? {
      p := ProjectSplit(start, before, op, after, index);
      return;
    }
    var cmd: Command;
    if op.Update? {
      cmd := UpdateCmd(op.id, op.fields);
    } else if op.Insert? {
      cmd := InsertAfter(op.afterId, after.items[AnchorAt(IdsOf(before), op.afterId).value]);
    } else if op.Move? {
      cmd := MoveAfter(op.id, op.afterId);
    } else {
      cmd := RemoveCmd(op.id);
    }
    assert Compile(before, op, after) == [Flagged(cmd, op.Insert?)];
    AppendAddsBlock(start, cmd, index, op.Insert?);
    p := start.Append(cmd, index, op.Insert?);
  }

  /** Why and where the projection failed. */
  datatype Failure = Failure(operation: nat, location: seq<Step>, unit: Option<string>)

  ghost predicate Holds(p: Projection, flags: seq<Flagged>, sources: seq<nat>) {
    p.Valid() && p.Flags() == flags && p.sources == sources
  }

  lemma AddsToWhatHolds(
      p: Projection, q: Projection, flags: seq<Flagged>, sources: seq<nat>, block: seq<Flagged>, source: nat)
    requires Holds(p, flags, sources) && Adds(p, q, block, source)
    ensures Holds(q, flags + block, sources + Repeat(|block|, source))
  {
  }

  /** What the projection has built after the first operations. */
  ghost predicate Projected(script: Script, done: seq<PatchOp>, p: Projection) {
    Blocks(script, done).Done? && Holds(p, Flatten(Blocks(script, done).value), Sources(done, 0))
  }

  lemma ProjectedStep(
      script: Script, done: seq<PatchOp>, op: PatchOp, before: Script, after: Script, p: Projection, q: Projection)
    requires Projected(script, done, p)
    requires Preview(script, done) == Done(before) && ApplyOp(before, op) == Done(after)
    requires Adds(p, q, Compile(before, op, after), |done|)
    ensures Projected(script, done + [op], q)
  {
    var block := Compile(before, op, after);
    FlatBlocksStep(script, done, op, before, after, block);
    BlockLength(before, op);
    SourcesOfBlock(done, op, |block|);
    AddsToWhatHolds(p, q, Flatten(Blocks(script, done).value), Sources(done, 0), block, |done|);
  }

  lemma SourcesOfBlock(done: seq<PatchOp>, op: PatchOp, n: nat)
    requires n == BlockSize(op)
    ensures Sources(done + [op], 0) == Sources(done, 0) + Repeat(n, |done|)
  {
    SourcesStep(done, op, 0);
  }

  lemma FlatBlocksStep(
      script: Script, done: seq<PatchOp>, op: PatchOp, before: Script, after: Script, block: seq<Flagged>)
    requires Blocks(script, done).Done? && Preview(script, done) == Done(before) && ApplyOp(before, op) == Done(after)
    requires block == Compile(before, op, after)
    ensures Blocks(script, done + [op]).Done?
    ensures Flatten(Blocks(script, done + [op]).value) == Flatten(Blocks(script, done).value) + block
  {
    BlocksStep(script, done, op, before, after);
    FlattenAppend(Blocks(script, done).value, block);
  }

  lemma PrefixGrows<T>(s: seq<T>, i: nat)
    requires i < |s|
    ensures s[..i + 1] == s[..i] + [s[i]]
  {
  }

  /** Projects one more operation that the preview accepted. */
  method ProjectNext(
      script: Script, ops: seq<PatchOp>, index: nat, projection: Projection, preview: Script, after: Script)
    returns (next: Projection)
    requires index < |ops| && Projected(script, ops[..index], projection)
    requires Preview(script, ops[..index]) == Done(preview) && ApplyOp(preview, ops[index]) == Done(after)
    ensures Projected(script, ops[..index + 1], next) && Preview(script, ops[..index + 1]) == Done(after)
  {
    PrefixGrows(ops, index);
    PreviewStep(script, ops[..index], ops[index]);
    next := ProjectOperation(projection, preview, ops[index], after, index);
    ProjectedStep(script, ops[..index], ops[index], preview, after, projection, next);
  }

  /** Projects the operations; on failure names the first operation the preview rejects, and where. */
  method ProjectPatchOperations(
      script: Script, ops: seq<PatchOp>) returns (projection: Projection, failure: Option<Failure>)
    ensures failure.None? <==> Preview(script, ops).Done?
    ensures failure.None? ==> Projected(script, ops, projection)
    ensures failure.Some? ==>
      var f := failure.value;
      && f.operation < |ops| && Before(script, ops, f.operation).Done?
      && ApplyOp(Before(script, ops, f.operation).value, ops[f.operation]) == Rejected(f.location, f.unit)
  {
    projection := Projection([], [], {});
    assert ops[..0] == [] && Flag([], {}) == [];
    var preview := script;
    for index := 0 to |ops|
      invariant Preview(script, ops[..index]) == Done(preview)
      invariant Projected(script, ops[..index], projection)
    {
      var r := ApplyOp(preview, ops[index]);
      if r.Rejected? {
        RejectionIsFinal(script, ops, index);
        return projection, Some(Failure(index, r.location, r.unit));
      }
      projection := ProjectNext(script, ops, index, projection, preview, r.value);
      preview := r.value;
    }
    assert ops[..|ops|] == ops;
    failure := None;
  }

  lemma {:induction false} RejectionIsFinal(p: Script, ops: seq<PatchOp>, i: nat)
    requires i < |ops| && Before(p, ops, i).Done? && ApplyOp(Before(p, ops, i).value, ops[i]).Rejected?
    ensures Preview(p, ops).Rejected?
    decreases |ops|
  {
    if i > 0 {
      assert ops[..i][1..] == ops[1..][..i - 1];
      RejectionIsFinal(ApplyOp(p, ops[0]).value, ops[1..], i - 1);
    }
  }
}
