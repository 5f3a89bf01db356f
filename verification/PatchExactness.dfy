/** When replaying the projected commands gives the preview to the letter, derived markers included
    (server/tool_runtime.py, lib/script/script_batch_edit.py). The preview leaves the markers alone and
    the batch editor derives them, so the two agree exactly where there was nothing to derive. */
module PatchExactness {
  import opened ScriptEditor
  import opened DerivedMarkers
  import opened PatchCompiler

  // ----- One operation -----

  /** The guard, read off the fields of the items the operation writes: their markers already are what
      their own fields, and the fields the update names, ask for. */
  predicate Settled(rules: Rules, p: Script, op: PatchOp) {
    match op
    case Update(id, fields) =>
      var at := Find(IdsOf(p), id);
      at < |p.items| ==>
        var edited := SetFields(p.items[at], fields, id);
        edited.Done? ==> UpdateKeeps(rules, p.idField, fields, p.items[at], edited.value)
    case Insert(_, item) => InsertKeeps(rules, p.idField, FreshItem(p.idField, item, NewItemId(p)))
    case Split(id, parts) =>
      var at := Find(IdsOf(p), id);
      at < |p.items| && |parts| >= 2 ==> AllKeep(rules, p.idField, SplitParts(p, at, parts))
    case _ => true
  }

  predicate AllKeep(rules: Rules, idField: string, items: seq<Item>) {
    forall i | 0 <= i < |items| :: InsertKeeps(rules, idField, items[i])
  }

  /** The commands of `op` make of `s` exactly what the operation makes of its script. */
  ghost predicate Reproduces(rules: Rules, s: State, op: PatchOp)
    requires ApplyOp(s.script, op).Done?
  {
    var after := ApplyOp(s.script, op).value;
    var r := Replay(rules, s, Compile(s.script, op, after));
    r.Done? && r.value.script == after
  }

  /** One operation is reproduced if and only if the guard holds. */
  lemma OperationIsExactIff(rules: Rules, s: State, op: PatchOp)
    requires WellFormed(s.script)
    ensures Admissible(op) && ApplyOp(s.script, op).Done? ==>
      (Reproduces(rules, s, op) <==> Settled(rules, s.script, op))
  {
    if Admissible(op) && ApplyOp(s.script, op).Done? {
      match op
      case Update(id, fields) => UpdateIsExactIff(rules, s, id, fields);
      case Insert(afterId, item) => InsertIsExactIff(rules, s, afterId, item);
      case Split(id, parts) => SplitIsExactIff(rules, s, id, parts);
      case Move(id, afterId) => ReplayOfOne(rules, s, Flagged(MoveAfter(id, afterId), false));
      case Remove(id) => ReplayOfOne(rules, s, Flagged(RemoveCmd(id), false));
    }
  }

  lemma UpdateIsExactIff(rules: Rules, s: State, id: string, fields: seq<Field>)
    requires WellFormed(s.script) && fields != [] && ApplyOp(s.script, Update(id, fields)).Done?
    ensures Reproduces(rules, s, Update(id, fields)) <==> Settled(rules, s.script, Update(id, fields))
  {
    var p := s.script;
    var at := Find(IdsOf(p), id);
    var edited := SetFields(p.items[at], fields, id).value;
    ReplayOfOne(rules, s, Flagged(UpdateCmd(id, fields), false));
    UpdateKeepsIff(rules, p.idField, fields, p.items[at], edited);
    SameUpdated(p.items, at, AfterUpdate(rules, p.idField, fields, p.items[at], edited), edited);
  }

  lemma SameUpdated(items: seq<Item>, at: nat, x: Item, y: Item)
    requires at < |items|
    ensures items[at := x] == items[at := y] <==> x == y
  {
    assert items[at := x][at] == x && items[at := y][at] == y;
  }

  lemma InsertIsExactIff(rules: Rules, s: State, afterId: Option<string>, item: Item)
    requires WellFormed(s.script) && ApplyOp(s.script, Insert(afterId, item)).Done?
    ensures Reproduces(rules, s, Insert(afterId, item)) <==> Settled(rules, s.script, Insert(afterId, item))
  {
    var p := s.script;
    var at := AnchorAt(IdsOf(p), afterId).value;
    var entered := FreshItem(p.idField, item, NewItemId(p));
    InsertOpResult(rules, s, p, afterId, item);
    InsertKeepsIff(rules, p.idField, entered);
    SameInserted(p.items, at, AfterInsert(rules, p.idField, entered), entered);
  }

  lemma SameInserted(items: seq<Item>, at: nat, x: Item, y: Item)
    requires at <= |items|
    ensures InsertAt(items, at, x) == InsertAt(items, at, y) <==> x == y
  {
    InsertedItem(items, at, x);
    InsertedItem(items, at, y);
  }

  lemma SplitIsExactIff(rules: Rules, s: State, id: string, parts: seq<Item>)
    requires WellFormed(s.script) && id != "" && ApplyOp(s.script, Split(id, parts)).Done?
    ensures Reproduces(rules, s, Split(id, parts)) <==> Settled(rules, s.script, Split(id, parts))
  {
    var p := s.script;
    var at := Find(IdsOf(p), id);
    var block := SplitParts(p, at, parts);
    SplitResult(rules, s, p, id, parts);
    SameSplitIff(rules, p, at, block);
  }

  lemma SameSplitIff(rules: Rules, p: Script, at: nat, block: seq<Item>)
    requires at < |p.items|
    ensures var entered := Entered(rules, p.idField, block);
      var before, after := p.items[..at], p.items[at + 1..];
      WithItems(p, before + entered + after) == WithItems(p, before + block + after) <==>
      AllKeep(rules, p.idField, block)
  {
    EnteredUnchangedIff(rules, p.idField, block);
    SameReplaced(p.items[..at], Entered(rules, p.idField, block), block, p.items[at + 1..]);
  }

  lemma EnteredUnchangedIff(rules: Rules, idField: string, items: seq<Item>)
    ensures Entered(rules, idField, items) == items <==> AllKeep(rules, idField, items)
  {
    var entered := Entered(rules, idField, items);
    forall i | 0 <= i < |items| ensures entered[i] == items[i] <==> InsertKeeps(rules, idField, items[i]) {
      InsertKeepsIff(rules, idField, items[i]);
    }
  }

  lemma SameReplaced(a: seq<Item>, x: seq<Item>, y: seq<Item>, c: seq<Item>)
    requires |x| == |y|
    ensures a + x + c == a + y + c <==> x == y
  {
    SliceOfBlock(a, x, c);
    SliceOfBlock(a, y, c);
  }

  // ----- Operation lists -----

  /** Replaying the commands of the first `i` operations gives the preview of these operations. */
  ghost predicate ExactUpTo(rules: Rules, s: State, ops: seq<PatchOp>, i: nat)
    requires i <= |ops|
  {
    var blocks, preview := Blocks(s.script, ops[..i]), Before(s.script, ops, i);
    && blocks.Done? && preview.Done?
    && var r := Replay(rules, s, Flatten(blocks.value));
       r.Done? && r.value.script == preview.value
  }

  /** The guard at operation `i`, on the preview it applies to. */
  ghost predicate SettledAt(rules: Rules, s: State, ops: seq<PatchOp>, i: nat)
    requires i < |ops|
  {
    Before(s.script, ops, i).Done? ==> Settled(rules, Before(s.script, ops, i).value, ops[i])
  }

  /** From an exact prefix, the next operation is exact if and only if its guard holds. */
  lemma NextIsExactIff(rules: Rules, s: State, ops: seq<PatchOp>, i: nat)
    requires WellFormed(s.script) && i < |ops| && ExactUpTo(rules, s, ops, i)
    requires Admissible(ops[i]) && ApplyOp(Before(s.script, ops, i).value, ops[i]).Done?
    ensures ExactUpTo(rules, s, ops, i + 1) <==> SettledAt(rules, s, ops, i)
  {
    var p := s.script;
    var before := Before(p, ops, i).value;
    var after := ApplyOp(before, ops[i]).value;
    var cmds := Compile(before, ops[i], after);
    var s' := Replay(rules, s, Flatten(Blocks(p, ops[..i]).value)).value;
    PrefixGrows(ops, i);
    PreviewStep(p, ops[..i], ops[i]);
    FlatBlocksStep(p, ops[..i], ops[i], before, after, cmds);
    ReplayOfConcat(rules, s, Flatten(Blocks(p, ops[..i]).value), cmds);
    PreviewKeepsWellFormed(p, ops[..i]);
    OperationIsExactIff(rules, s', ops[i]);
  }

  lemma {:induction false} PreviewKeepsWellFormed(p: Script, ops: seq<PatchOp>)
    requires WellFormed(p) && Preview(p, ops).Done?
    ensures WellFormed(Preview(p, ops).value)
    decreases |ops|
  {
    if ops != [] {
      ApplyKeepsWellFormed(p, ops[0]);
      PreviewKeepsWellFormed(ApplyOp(p, ops[0]).value, ops[1..]);
    }
  }

  lemma {:induction false} ExactIfSettled(rules: Rules, s: State, ops: seq<PatchOp>, i: nat)
    requires WellFormed(s.script) && i <= |ops| && Preview(s.script, ops).Done?
    requires forall j | 0 <= j < |ops| :: Admissible(ops[j])
    requires forall j: nat | j < i :: SettledAt(rules, s, ops, j)
    ensures ExactUpTo(rules, s, ops, i)
  {
    if i == 0 {
      NothingYet(rules, s, ops);
    } else {
      ExactIfSettled(rules, s, ops, i - 1);
      BlockIsCompiled(s.script, ops, i - 1);
      NextIsExactIff(rules, s, ops, i - 1);
    }
  }

  lemma NothingYet(rules: Rules, s: State, ops: seq<PatchOp>)
    ensures ExactUpTo(rules, s, ops, 0)
  {
    assert ops[..0] == [];
  }

  /** For an operation list the preview accepts: every prefix is replayed to the letter if and only if
      the guard holds at every operation. */
  lemma ReplayIsExactIff(rules: Rules, s: State, ops: seq<PatchOp>)
    requires WellFormed(s.script)
    ensures Preview(s.script, ops).Done? && (forall i | 0 <= i < |ops| :: Admissible(ops[i])) ==>
      ((forall i: nat | i <= |ops| :: ExactUpTo(rules, s, ops, i)) <==>
       (forall i: nat | i < |ops| :: SettledAt(rules, s, ops, i)))
  {
    if Preview(s.script, ops).Done? && forall i | 0 <= i < |ops| :: Admissible(ops[i]) {
      if forall i: nat | i < |ops| :: SettledAt(rules, s, ops, i) {
        forall i: nat | i <= |ops| ensures ExactUpTo(rules, s, ops, i) {
          ExactIfSettled(rules, s, ops, i);
        }
      }
      if forall i: nat | i <= |ops| :: ExactUpTo(rules, s, ops, i) {
        forall i: nat | i < |ops| ensures SettledAt(rules, s, ops, i) {
          BlockIsCompiled(s.script, ops, i);
          assert ExactUpTo(rules, s, ops, i + 1);
          NextIsExactIff(rules, s, ops, i);
        }
      }
    }
  }

  // ----- An input that is not reproduced -----

  /** Inserting a segment without prompts into an empty script: the preview's item carries no marker, the
      replayed one is pending. */
  lemma InsertWithoutPromptsDiffers(rules: Rules)
    ensures var s := State(Script([], "segment_id", 'S', Some(1)), map[]);
      var op := Insert(None, map["novel_text" := Str("text")]);
      && WellFormed(s.script) && ApplyOp(s.script, op).Done? && !Reproduces(rules, s, op)
      && var preview := ApplyOp(s.script, op).value.items;
         |preview| == 1 && PENDING !in preview[0] && "image_prompt" !in preview[0]
  {
    var s := State(Script([], "segment_id", 'S', Some(1)), map[]);
    var item: Item := map["novel_text" := Str("text")];
    var entered := FreshItem("segment_id", item, NewItemId(s.script));
    assert "image_prompt" in VisualLayer("segment_id") && "image_prompt" !in entered && PENDING !in entered;
    InsertIsExactIff(rules, s, None, item);
  }
}
