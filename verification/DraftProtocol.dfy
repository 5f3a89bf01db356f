/** Editing a formal script plan through a draft (server/draft_workflow.py and the commit half of
    server/text_generation.py). Agents, generations and Web saves interleave; the draft carries a
    revision and the formal plan a fingerprint. Digests are taken to be injective, so a revision is
    the draft it was computed from and a fingerprint is the document. */
module DraftProtocol {
  import opened ScriptEditor

  /** What the formal file holds: parsed JSON, or bytes that are not JSON. */
  datatype Document = Parsed(json: Json) | Raw(text: string)

  type Fingerprint = Option<Document>

  /** The fingerprint a draft is checked against; drafts without one are promoted unchecked. */
  datatype Base = Unchecked | Checked(fingerprint: Fingerprint)

  datatype Violation = Reported(detail: Json) | FormalChanged(expected: Fingerprint, actual: Fingerprint)

  /** A draft envelope. An editable copy taken from the formal plan belongs to the agent. */
  datatype Draft = Draft(
    content: Json, violations: seq<Violation>, source: Option<string>, base: Base, formalEdit: bool)

  datatype DraftFile = Absent | Corrupt(raw: string) | Readable(draft: Draft)

  /** What a generation recorded before calling the model. */
  datatype Baseline = Baseline(draft: DraftFile, formal: Fingerprint)

  /** `promoting` is the draft of the promotion that holds the draft lock, if there is one. */
  datatype State = State(
    formal: Fingerprint, confirmed: Fingerprint, draft: DraftFile, generations: map<nat, Baseline>,
    promoting: Option<Draft>)

  /** How a project's route turns a formal plan into draft content and back. */
  datatype Route = Route(toDraft: Json -> Option<Json>, toFormal: Json -> Json)

  /** The validator's answer for a draft. */
  datatype Verdict =
    | SourceUnreadable
    | Malformed(problems: seq<Violation>)
    | Violating(content: Json, problems: seq<Violation>)
    | Accepted(content: Json)

  datatype Generated = Invalid(content: Json, problems: seq<Violation>) | Valid(content: Json)

  /** Everything that can happen to an episode's plan. `SetFormal` and `SetConfirmed` are writers
      outside this protocol: migrations, deletions, confirmations. */
  datatype Action =
    | Open(source: Option<string>, sourceReadable: bool)
    | Patch(content: Json, revision: Draft, accept: Option<Fingerprint>, newSource: Option<Option<string>>,
            sourceReadable: bool)
    | PromoteBegin(revision: Draft)
    | PromoteEnd(verdict: Verdict)
    | PromoteFail
    | Discard(token: Option<Draft>)
    | GenerationStart(id: nat)
    | GenerationEnd(id: nat, output: Generated, source: Option<string>)
    | WebSave(content: Json, expected: Option<Fingerprint>)
    | SetFormal(formal: Fingerprint)
    | SetConfirmed(confirmed: Fingerprint)

  datatype Outcome =
    | Adopted
    | Refreshed
    | Returned(draft: Draft)
    | Discarded(existed: bool)
    | Started
    | Waiting
    | DraftNotFound
    | DraftSourceMissing
    | UnreadableSource
    | RevisionConflict
    | FormalRevisionConflict
    | ScriptPlanConfirmed
    | AgentOwned

  // ----- One step -----

  predicate Confirmed(s: State) {
    s.formal.Some? && s.confirmed == s.formal
  }

  predicate AgentDraft(file: DraftFile) {
    file.Readable? && file.draft.formalEdit
  }

  predicate Matches(base: Base, formal: Fingerprint) {
    base == Unchecked || base == Checked(formal)
  }

  function DraftShape(route: Route, formal: Fingerprint): Option<Json> {
    if formal.Some? && formal.value.Parsed? then route.toDraft(formal.value.json) else None
  }

  function Written(route: Route, content: Json): Fingerprint {
    Some(Parsed(route.toFormal(content)))
  }

  function OpenStep(route: Route, s: State, source: Option<string>, sourceReadable: bool): (State, Outcome) {
    match s.draft
    case Readable(d) => (s, Returned(d))
    case Corrupt(_) => (s, DraftNotFound)
    case Absent =>
      var shape := DraftShape(route, s.formal);
      if Confirmed(s) then (s, ScriptPlanConfirmed)
      else if source.Some? && !sourceReadable then (s, UnreadableSource)
      else if shape.None? then (s, DraftSourceMissing)
      else
        var d := Draft(shape.value, [], if source == Some("") then None else source, Checked(s.formal), true);
        (s.(draft := Readable(d)), Returned(d))
  }

  function PatchStep(s: State, a: Action): (State, Outcome)
    requires a.Patch?
  {
    if !s.draft.Readable? then (s, DraftNotFound)
    else
      var d := s.draft.draft;
      if a.revision != d then (s, RevisionConflict)
      else if d.formalEdit && Confirmed(s) then (s, ScriptPlanConfirmed)
      else if a.newSource.Some? && !a.sourceReadable then (s, UnreadableSource)
      else if a.accept.Some? && a.accept.value != s.formal then (s, FormalRevisionConflict)
      else
        var next := d.(content := a.content,
                       source := if a.newSource.Some? then a.newSource.value else d.source,
                       base := if a.accept.Some? then Checked(s.formal) else d.base);
        (s.(draft := Readable(next)), Returned(next))
  }

  function PromoteBeginStep(s: State, revision: Draft): (State, Outcome) {
    if !s.draft.Readable? then (s, DraftNotFound)
    else if revision != s.draft.draft then (s, RevisionConflict)
    else if s.draft.draft.formalEdit && Confirmed(s) then (s, ScriptPlanConfirmed)
    else (s.(promoting := Some(s.draft.draft)), Started)
  }

  function PromoteEndStep(route: Route, s: State, verdict: Verdict): (State, Outcome)
    requires s.promoting.Some?
  {
    var d := s.promoting.value;
    var free := s.(promoting := None);
    match verdict
    case SourceUnreadable => (free, UnreadableSource)
    case Malformed(problems) => (free.(draft := Readable(d.(violations := problems))), Refreshed)
    case Violating(content, problems) =>
      (free.(draft := Readable(d.(content := content, violations := problems))), Refreshed)
    case Accepted(content) =>
      if Matches(d.base, s.formal)
      then (free.(formal := Written(route, content), draft := Absent), Adopted)
      else (free, FormalRevisionConflict)
  }

  function DiscardStep(s: State, revision: Option<Draft>): (State, Outcome) {
    if s.draft.Readable? && revision != Some(s.draft.draft) then (s, RevisionConflict)
    else (s.(draft := Absent), Discarded(s.draft != Absent))
  }

  function GenerationEndStep(route: Route, s: State, id: nat, output: Generated, source: Option<string>)
    : (State, Outcome)
    requires id in s.generations
  {
    var b := s.generations[id];
    var over := s.(generations := s.generations - {id});
    if b.draft != s.draft then (over, RevisionConflict)
    else
      match output
      case Invalid(content, problems) =>
        var kept := if source == Some("") then None else source;
        (over.(draft := Readable(Draft(content, problems, kept, Checked(b.formal), false))), Refreshed)
      case Valid(content) =>
        if b.formal == s.formal then (over.(formal := Written(route, content), draft := Absent), Adopted)
        else
          var note := FormalChanged(b.formal, s.formal);
          (over.(draft := Readable(Draft(content, [note], source, Checked(b.formal), false))), FormalRevisionConflict)
  }

  function WebSaveStep(s: State, content: Json, expected: Option<Fingerprint>): (State, Outcome) {
    if AgentDraft(s.draft) then (s, AgentOwned)
    else if Confirmed(s) then (s, ScriptPlanConfirmed)
    else if expected.Some? && expected.value.Some? && expected.value != s.formal then (s, FormalRevisionConflict)
    else (s.(formal := Some(Parsed(content))), Adopted)
  }

  /** Actions that run under the draft lock from start to end. */
  predicate NeedsDraftLock(a: Action) {
    a.Open? || a.Patch? || a.PromoteBegin? || a.Discard? || a.GenerationStart? || a.GenerationEnd?
  }

  predicate Enabled(s: State, a: Action) {
    && (NeedsDraftLock(a) ==> s.promoting.None?)
    && (a.PromoteEnd? || a.PromoteFail? ==> s.promoting.Some?)
    && (a.GenerationStart? ==> a.id !in s.generations)
    && (a.GenerationEnd? ==> a.id in s.generations)
  }

  function Perform(route: Route, s: State, a: Action): (State, Outcome) {
    if !Enabled(s, a) then (s, Waiting)
    else
      match a
      case Open(source, readable) => OpenStep(route, s, source, readable)
      case Patch(_, _, _, _, _) => PatchStep(s, a)
      case PromoteBegin(revision) => PromoteBeginStep(s, revision)
      case PromoteEnd(verdict) => PromoteEndStep(route, s, verdict)
      case PromoteFail => (s.(promoting := None), Waiting)
      case Discard(revision) => DiscardStep(s, revision)
      case GenerationStart(id) => (s.(generations := s.generations[id := Baseline(s.draft, s.formal)]), Started)
      case GenerationEnd(id, output, source) => GenerationEndStep(route, s, id, output, source)
      case WebSave(content, expected) => WebSaveStep(s, content, expected)
      case SetFormal(formal) => (s.(formal := formal), Adopted)
      case SetConfirmed(confirmed) => (s.(confirmed := confirmed), Adopted)
  }

  // ----- Runs -----

  /** Any interleaving of actions, from any documents on disk, with nothing yet in flight. */
  datatype Trace = Trace(route: Route, states: seq<State>, acts: seq<Action>)

  ghost predicate Run(t: Trace) {
    && |t.states| == |t.acts| + 1
    && t.states[0].promoting.None? && t.states[0].generations == map[]
    && forall i | 0 <= i < |t.acts| :: t.states[i + 1] == Perform(t.route, t.states[i], t.acts[i]).0
  }

  function Did(t: Trace, i: nat): Outcome
    requires i < |t.acts| < |t.states|
  {
    Perform(t.route, t.states[i], t.acts[i]).1
  }

  /** Between checking its draft and committing it, a promotion's draft stays as it was read. */
  lemma {:induction false} PromotedDraftStays(t: Trace, k: nat)
    requires Run(t) && k < |t.states|
    ensures t.states[k].promoting.Some? ==> t.states[k].draft == Readable(t.states[k].promoting.value)
  {
    if k > 0 {
      PromotedDraftStays(t, k - 1);
    }
  }

  // ----- Who may move a draft -----

  /** The draft that step `k` finds. */
  predicate Finds(t: Trace, k: nat, d: Draft)
    requires k < |t.states|
  {
    t.states[k].draft == Readable(d)
  }

  /** A promotion that starts was given the revision of the draft it takes. */
  lemma StartedNamesItsDraft(t: Trace, k: nat)
    requires Run(t) && k < |t.acts| && t.acts[k].PromoteBegin? && Enabled(t.states[k], t.acts[k])
    ensures var d := t.acts[k].revision;
      && (Did(t, k) == Started <==> Finds(t, k, d) && !(d.formalEdit && Confirmed(t.states[k])))
      && (Did(t, k) == Started ==> t.states[k + 1] == t.states[k].(promoting := Some(d)))
      && (Did(t, k) != Started ==> t.states[k + 1] == t.states[k])
  {
  }

  /** A promotion in flight was begun with the revision of the draft it holds, which was there. */
  ghost predicate BegunAt(t: Trace, b: nat, k: nat, d: Draft)
    requires Run(t) && k < |t.states|
  {
    b < k && t.acts[b] == PromoteBegin(d) && Did(t, b) == Started && forall i | b <= i <= k :: Finds(t, i, d)
  }

  lemma {:induction false} PromotionNamedItsDraft(t: Trace, k: nat) returns (b: nat)
    requires Run(t) && k < |t.states| && t.states[k].promoting.Some?
    ensures BegunAt(t, b, k, t.states[k].promoting.value)
  {
    PromotedDraftStays(t, k);
    if t.states[k - 1].promoting.Some? {
      b := PromotionNamedItsDraft(t, k - 1);
    } else {
      b := k - 1;
    }
  }

  /** An adopted promotion commits the draft its caller named, unchanged since then. */
  lemma AdoptedNamedItsDraft(t: Trace, k: nat) returns (b: nat)
    requires Run(t) && k < |t.acts| && t.acts[k].PromoteEnd? && Did(t, k) == Adopted
    ensures t.states[k].draft.Readable? && BegunAt(t, b, k, t.states[k].draft.draft)
  {
    PromotedDraftStays(t, k);
    b := PromotionNamedItsDraft(t, k);
  }

  /** When a patch is taken, and what the draft is afterwards. */
  lemma PatchNamesItsDraft(t: Trace, k: nat)
    requires Run(t) && k < |t.acts| && t.acts[k].Patch? && Enabled(t.states[k], t.acts[k])
    ensures var a, s, d := t.acts[k], t.states[k], t.acts[k].revision;
      && (Did(t, k).Returned? <==>
            && Finds(t, k, d) && !(d.formalEdit && Confirmed(s))
            && (a.newSource.Some? ==> a.sourceReadable) && (a.accept.Some? ==> a.accept.value == s.formal))
      && (Did(t, k).Returned? ==>
            && t.states[k + 1] == s.(draft := Readable(Did(t, k).draft))
            && var next := Did(t, k).draft;
               && next.content == a.content
               && next.source == (if a.newSource.Some? then a.newSource.value else d.source)
               && next.base == (if a.accept.Some? then Checked(a.accept.value) else d.base)
               && next.violations == d.violations && next.formalEdit == d.formalEdit)
      && (!Did(t, k).Returned? ==> t.states[k + 1] == s)
  {
  }

  /** A readable draft is discarded by its revision only. */
  lemma DiscardNamesItsDraft(t: Trace, k: nat)
    requires Run(t) && k < |t.acts| && t.acts[k].Discard? && Enabled(t.states[k], t.acts[k])
    ensures t.states[k + 1] == t.states[k].(draft := Absent) || t.states[k + 1] == t.states[k]
    ensures t.states[k + 1].draft == Absent <==>
      (t.states[k].draft.Readable? ==> t.acts[k].token == Some(t.states[k].draft.draft))
  {
  }

  /** An empty source name stands for none. */
  function Named(source: Option<string>): Option<string> {
    match source
    case Some(name) => if name == "" then None else source
    case None => None
  }

  /** When opening answers with a draft, and which: the one that is there, else a fresh copy of the formal
      plan that belongs to the agent. Refusals change nothing. */
  lemma OpeningAnswers(t: Trace, k: nat)
    requires Run(t) && k < |t.acts| && t.acts[k].Open? && Enabled(t.states[k], t.acts[k])
    ensures var s, source := t.states[k], t.acts[k].source;
      && (Did(t, k).Returned? <==>
            || s.draft.Readable?
            || (s.draft == Absent && !Confirmed(s) && DraftShape(t.route, s.formal).Some? &&
                (source.Some? ==> t.acts[k].sourceReadable)))
      && (s.draft.Readable? ==> Did(t, k) == Returned(s.draft.draft))
      && (Did(t, k).Returned? && s.draft == Absent ==>
            && t.states[k + 1] == s.(draft := Readable(Did(t, k).draft))
            && var d := Did(t, k).draft;
               && Some(d.content) == DraftShape(t.route, s.formal) && d.violations == [] && d.formalEdit
               && d.source == Named(source) && d.base == Checked(s.formal))
      && (!Did(t, k).Returned? || s.draft.Readable? ==> t.states[k + 1] == s)
  {
  }

  /** What the end of a promotion makes of the draft: its report is kept with it, the draft lock is free. */
  lemma PromotionReports(t: Trace, k: nat)
    requires Run(t) && k < |t.acts| && t.acts[k].PromoteEnd? && Enabled(t.states[k], t.acts[k])
    ensures var before, after := t.states[k], t.states[k + 1];
      && before.draft.Readable? && after.promoting.None?
      && after.confirmed == before.confirmed && after.generations == before.generations
      && var d := before.draft.draft;
         match t.acts[k].verdict
         case SourceUnreadable => Did(t, k) == UnreadableSource && after.draft == before.draft
         case Malformed(problems) =>
           && Did(t, k) == Refreshed && after.draft.Readable?
           && after.draft.draft.content == d.content && after.draft.draft.violations == problems
         case Violating(content, problems) =>
           && Did(t, k) == Refreshed && after.draft.Readable?
           && after.draft.draft.content == content && after.draft.draft.violations == problems
         case Accepted(_) =>
           Did(t, k) == Adopted || (Did(t, k) == FormalRevisionConflict && after.draft == before.draft)
  {
    PromotedDraftStays(t, k);
  }

  /** A promotion that fails on its way gives the lock back and changes nothing else. */
  lemma FailedPromotionFreesTheLock(t: Trace, k: nat)
    requires Run(t) && k < |t.acts| && t.acts[k].PromoteFail? && Enabled(t.states[k], t.acts[k])
    ensures t.states[k + 1].promoting.None? && t.states[k + 1].draft == t.states[k].draft
    ensures t.states[k + 1] == t.states[k].(promoting := t.states[k + 1].promoting)
  {
  }

  /** When a Web save goes through: without an agent's copy, without a confirmed plan, and on the version
      it states. Then its content is the formal plan; otherwise nothing changes. */
  lemma WebSaveAnswers(t: Trace, k: nat)
    requires Run(t) && k < |t.acts| && t.acts[k].WebSave?
    ensures var s, a := t.states[k], t.acts[k];
      && (Did(t, k) == Adopted <==>
            && !AgentDraft(s.draft) && !Confirmed(s)
            && (a.expected.Some? && a.expected.value.Some? ==> a.expected.value == s.formal))
      && t.states[k + 1] == (if Did(t, k) == Adopted then s.(formal := Some(Parsed(a.content))) else s)
  {
  }

  /** Writers outside the protocol put in place what they write and touch nothing else. */
  lemma OutsideWritersWrite(t: Trace, k: nat)
    requires Run(t) && k < |t.acts|
    ensures t.acts[k].SetFormal? ==>
      t.states[k + 1].formal == t.acts[k].formal && t.states[k + 1] == t.states[k].(formal := t.states[k + 1].formal)
    ensures t.acts[k].SetConfirmed? ==>
      && t.states[k + 1].confirmed == t.acts[k].confirmed
      && t.states[k + 1] == t.states[k].(confirmed := t.states[k + 1].confirmed)
  {
  }

  /** What moves the readable draft `d` at step `k`: somebody who named it, the promotion that holds it and
      was begun by its name, or a generation that had read it. */
  ghost predicate MovedBy(t: Trace, k: nat, d: Draft)
    requires Run(t) && k < |t.acts|
  {
    match t.acts[k]
    case Patch(_, revision, _, _, _) => revision == d && Did(t, k).Returned?
    case Discard(token) => token == Some(d)
    case PromoteEnd(_) => exists b :: BegunAt(t, b, k, d)
    case GenerationEnd(id, _, _) => exists r :: StartedAt(t, id, r, k) && Finds(t, r, d)
    case _ => false
  }

  /** In every run a readable draft changes or goes only by those who know it. */
  lemma DraftMovesByName(t: Trace, k: nat)
    requires Run(t) && k < |t.acts| && t.states[k].draft.Readable?
    requires t.states[k + 1].draft != t.states[k].draft
    ensures MovedBy(t, k, t.states[k].draft.draft)
  {
    var a := t.acts[k];
    if a.PromoteEnd? {
      PromotedDraftStays(t, k);
      var b := PromotionNamedItsDraft(t, k);
    } else if a.GenerationEnd? {
      var r := BaselineWasRead(t, a.id, k);
      assert Runs(t, a.id, r, k);
      assert Finds(t, r, t.states[k].draft.draft);
    }
  }

  /** A confirmed plan is not edited: no copy of it is opened, moved on or promoted by its agent. */
  lemma ConfirmedPlanIsNotEdited(t: Trace, k: nat)
    requires Run(t) && k < |t.acts| && Confirmed(t.states[k])
    requires t.acts[k].Open? || t.acts[k].Patch? || t.acts[k].PromoteBegin? || t.acts[k].WebSave?
    requires t.acts[k].Open? || AgentDraft(t.states[k].draft) || t.acts[k].WebSave?
    ensures t.states[k + 1] == t.states[k]
  {
  }

  // ----- Where the base of a draft comes from -----

  /** A generation recorded at `r` is still the one running under `id` at `k`. */
  ghost predicate StartedAt(t: Trace, id: nat, r: nat, k: nat)
    requires Run(t) && k < |t.states|
  {
    && r < k && t.acts[r] == GenerationStart(id)
    && t.states[r + 1].generations == t.states[r].generations[id := Baseline(t.states[r].draft, t.states[r].formal)]
    && forall i | r < i <= k :: Runs(t, id, r, i)
  }

  ghost predicate Runs(t: Trace, id: nat, r: nat, i: nat)
    requires r < i < |t.states|
  {
    && id in t.states[i].generations
    && t.states[i].generations[id] == Baseline(t.states[r].draft, t.states[r].formal)
  }

  lemma {:induction false} BaselineWasRead(t: Trace, id: nat, k: nat) returns (r: nat)
    requires Run(t) && k < |t.states| && id in t.states[k].generations
    ensures StartedAt(t, id, r, k)
  {
    var s, a := t.states[k - 1], t.acts[k - 1];
    if id in s.generations {
      r := BaselineWasRead(t, id, k - 1);
      assert Runs(t, id, r, k - 1);
      assert Runs(t, id, r, k);
    } else {
      r := k - 1;
      assert a == GenerationStart(id);
      assert Runs(t, id, r, k);
    }
  }

  /** Step `w` gave the draft the base `v`: it opened the formal plan `v`, accepted `v` for merged
      content, or kept the output of a generation that had read `v` at step `r`. */
  ghost predicate Origin(t: Trace, r: nat, w: nat, v: Fingerprint)
    requires Run(t) && w < |t.acts|
  {
    && r <= w && t.states[r].formal == v
    && match t.acts[w]
       case Open(_, _) =>
         && r == w && t.states[w].draft == Absent && Did(t, w).Returned?
         && DraftShape(t.route, v) == Some(Did(t, w).draft.content)
       case Patch(_, _, accept, _, _) => r == w && accept == Some(v) && Did(t, w).Returned?
       case GenerationEnd(id, _, _) =>
         && StartedAt(t, id, r, w)
         && t.states[r].draft == t.states[w].draft && t.states[w + 1].draft != Absent
       case _ => false
  }

  /** A draft with base `v` has been present at every state from `from` to `k`. */
  ghost predicate Present(t: Trace, from: nat, k: nat, base: Base)
    requires k < |t.states|
  {
    forall i | from <= i <= k :: HasBase(t.states[i], base)
  }

  predicate HasBase(s: State, base: Base) {
    s.draft.Readable? && s.draft.draft.base == base
  }

  /** The draft at `k` descends, unbroken, from a step that took `v` as its base. */
  ghost predicate Descends(t: Trace, r: nat, w: nat, k: nat, v: Fingerprint)
    requires Run(t) && k < |t.states|
  {
    r <= w < k && Origin(t, r, w, v) && Present(t, w + 1, k, Checked(v))
  }

  ghost predicate Traceable(t: Trace, k: nat, base: Base)
    requires Run(t) && k < |t.states|
  {
    || Present(t, 0, k, base)
    || (base.Checked? && exists r, w :: Descends(t, r, w, k, base.fingerprint))
  }

  /** Which steps give a draft a base it did not have before. */
  lemma NewBase(route: Route, s: State, a: Action, base: Base)
    requires s.promoting.Some? ==> s.draft == Readable(s.promoting.value)
    requires HasBase(Perform(route, s, a).0, base) && !HasBase(s, base)
    ensures Enabled(s, a) && base.Checked?
    ensures a.Open? || a.Patch? || a.GenerationEnd?
    ensures a.Open? ==> s.draft == Absent && base.fingerprint == s.formal && Perform(route, s, a).1.Returned?
    ensures a.Open? ==> DraftShape(route, s.formal) == Some(Perform(route, s, a).1.draft.content)
    ensures a.Patch? ==> a.accept == Some(s.formal) && base.fingerprint == s.formal && Perform(route, s, a).1.Returned?
    ensures a.GenerationEnd? ==>
              s.generations[a.id].draft == s.draft && s.generations[a.id].formal == base.fingerprint
  {
  }

  /** Every draft is traceable: it was there from the start, or its base is a formal version that it
      was opened from, that its generation had read, or that was accepted for it. */
  lemma {:induction false} DraftIsTraceable(t: Trace, k: nat, base: Base)
    requires Run(t) && k < |t.states| && HasBase(t.states[k], base)
    ensures Traceable(t, k, base)
  {
    if k > 0 {
      var s, a := t.states[k - 1], t.acts[k - 1];
      if HasBase(s, base) {
        DraftIsTraceable(t, k - 1, base);
        if !Present(t, 0, k, base) {
          var r, w :| Descends(t, r, w, k - 1, base.fingerprint);
          assert Descends(t, r, w, k, base.fingerprint);
        }
      } else {
        PromotedDraftStays(t, k - 1);
        NewBase(t.route, s, a, base);
        var r := k - 1;
        if a.GenerationEnd? {
          r := BaselineWasRead(t, a.id, k - 1);
          assert Runs(t, a.id, r, k - 1);
        }
        assert Origin(t, r, k - 1, base.fingerprint);
        assert Descends(t, r, k - 1, k, base.fingerprint);
      }
    }
  }

  /** A draft loses its base to nothing: unless one without it was there from the start, every
      draft of every run can be checked. */
  lemma EveryDraftCarriesABase(t: Trace, k: nat)
    requires Run(t) && k < |t.states| && t.states[k].draft.Readable?
    requires !HasBase(t.states[0], Unchecked)
    ensures t.states[k].draft.draft.base.Checked?
  {
    DraftIsTraceable(t, k, t.states[k].draft.draft.base);
  }

  // ----- No lost update -----

  /** What entitles step `k` to put a new formal plan in place. */
  ghost predicate Entitled(t: Trace, k: nat)
    requires Run(t) && k < |t.acts|
  {
    match t.acts[k]
    case PromoteEnd(_) =>
      || Present(t, 0, k, Unchecked)
      || Present(t, 0, k, Checked(t.states[k].formal))
      || exists r, w :: Descends(t, r, w, k, t.states[k].formal)
    case GenerationEnd(id, _, _) =>
      exists r: nat ::
        StartedAt(t, id, r, k) && t.states[r].formal == t.states[k].formal && t.states[r].draft == t.states[k].draft
    case WebSave(_, expected) =>
      && !AgentDraft(t.states[k].draft) && !Confirmed(t.states[k])
      && (expected.Some? && expected.value.Some? ==> expected.value == t.states[k].formal)
    case _ => t.acts[k].SetFormal?
  }

  /** In every interleaving, a promotion replaces only a formal version that its draft was opened
      from, generated against or explicitly accepted (or was based on from the start), a generation
      only the version it had read, with the draft as it had read it too, and a Web save that states
      a base only that base, never while the agent holds a copy or the plan is confirmed. */
  lemma NoLostUpdate(t: Trace, k: nat)
    requires Run(t) && k < |t.acts|
    requires t.states[k + 1].formal != t.states[k].formal || (Did(t, k) == Adopted && !t.acts[k].SetConfirmed?)
    ensures Entitled(t, k)
  {
    var s, a := t.states[k], t.acts[k];
    if a.PromoteEnd? {
      PromotedDraftStays(t, k);
      DraftIsTraceable(t, k, s.draft.draft.base);
    } else if a.GenerationEnd? {
      var r := BaselineWasRead(t, a.id, k);
      assert Runs(t, a.id, r, k);
    }
  }

  /** A promotion is adopted exactly when the validator accepts the draft and the formal plan is the
      draft's base; otherwise the formal plan is untouched and the draft is still there, with the
      same base, source and owner. */
  lemma PromotionIsAllOrNothing(t: Trace, k: nat)
    requires Run(t) && k < |t.acts| && t.acts[k].PromoteEnd? && Enabled(t.states[k], t.acts[k])
    ensures t.states[k].draft.Readable?
    ensures var before, after, d := t.states[k], t.states[k + 1], t.states[k].draft.draft;
            && (Did(t, k) == Adopted <==> t.acts[k].verdict.Accepted? && Matches(d.base, before.formal))
            && (Did(t, k) == Adopted ==>
                  after.draft == Absent && after.formal == Written(t.route, t.acts[k].verdict.content))
            && (Did(t, k) != Adopted ==>
                  && after.formal == before.formal && after.draft.Readable?
                  && after.draft.draft.(content := d.content, violations := d.violations) == d)
            && (Did(t, k) != Adopted && Did(t, k) != Refreshed ==> after.draft == before.draft)
  {
    PromotedDraftStays(t, k);
  }

  // ----- Generations -----

  /** A generation that ends never replaces a draft or a formal plan that changed since it read its
      baselines; when only the formal plan changed, its output stays as a draft based on the old one. */
  lemma GenerationRace(t: Trace, k: nat) returns (r: nat)
    requires Run(t) && k < |t.acts| && t.acts[k].GenerationEnd? && Enabled(t.states[k], t.acts[k])
    ensures StartedAt(t, t.acts[k].id, r, k)
    ensures t.states[r].draft != t.states[k].draft ==>
              Did(t, k) == RevisionConflict && t.states[k + 1].draft == t.states[k].draft
    ensures t.states[r].formal != t.states[k].formal ==> t.states[k + 1].formal == t.states[k].formal
    ensures t.states[r].draft == t.states[k].draft ==>
              match t.acts[k].output
              case Invalid(content, _) => KeptOutput(t.states[k + 1], content, t.states[r].formal)
              case Valid(content) =>
                if t.states[r].formal == t.states[k].formal
                then t.states[k + 1].formal == Written(t.route, content) && t.states[k + 1].draft == Absent
                else KeptOutput(t.states[k + 1], content, t.states[r].formal)
    ensures t.acts[k].output.Invalid? ==> t.states[k + 1].formal == t.states[k].formal
  {
    r := BaselineWasRead(t, t.acts[k].id, k);
    assert Runs(t, t.acts[k].id, r, k);
  }

  /** A generation is recorded with what it read when it starts, is forgotten when it ends, and hands its
      findings to the draft it leaves. */
  lemma GenerationIsRecorded(t: Trace, k: nat)
    requires Run(t) && k < |t.acts| && Enabled(t.states[k], t.acts[k])
    ensures t.acts[k].GenerationStart? ==>
      && t.acts[k].id in t.states[k + 1].generations
      && t.states[k + 1].generations[t.acts[k].id] == Baseline(t.states[k].draft, t.states[k].formal)
      && t.states[k + 1].generations - {t.acts[k].id} == t.states[k].generations
    ensures t.acts[k].GenerationEnd? ==>
      t.states[k + 1].generations == t.states[k].generations - {t.acts[k].id}
    ensures t.acts[k].GenerationEnd? && Did(t, k) == Refreshed ==>
      && t.acts[k].output.Invalid? && t.states[k + 1].draft.Readable?
      && t.states[k + 1].draft.draft.violations == t.acts[k].output.problems
      && t.states[k + 1].draft.draft.source == Named(t.acts[k].source)
    ensures t.acts[k].GenerationEnd? && Did(t, k) == FormalRevisionConflict ==>
      && t.states[k + 1].draft.Readable? && t.states[k + 1].draft.draft.source == t.acts[k].source
      && t.states[k + 1].draft.draft.violations ==
         [FormalChanged(t.states[k].generations[t.acts[k].id].formal, t.states[k].formal)]
  {
  }

  predicate KeptOutput(s: State, content: Json, base: Fingerprint) {
    HasBase(s, Checked(base)) && s.draft.draft.content == content && !s.draft.draft.formalEdit
  }

  predicate Rebases(a: Action) {
    a.GenerationEnd? || (a.Patch? && a.accept.Some?)
  }

  /** Without an acceptance or another generation's output, a draft keeps its base for as long as
      there is a draft. */
  lemma {:induction false} BaseIsKept(t: Trace, from: nat, k: nat, base: Base)
    requires Run(t) && from <= k < |t.states| && HasBase(t.states[from], base)
    requires forall i | from <= i <= k :: t.states[i].draft != Absent
    requires forall i | from <= i < k :: !Rebases(t.acts[i])
    ensures Present(t, from, k, base)
  {
    if from < k {
      BaseIsKept(t, from, k - 1, base);
      assert HasBase(t.states[k - 1], base);
      PromotedDraftStays(t, k - 1);
    }
  }

  /** Output kept after a formal conflict is not promoted until the new formal version is accepted:
      before that, only the formal plan's return to what the generation had read lets it through. */
  lemma KeptOutputAwaitsAcceptance(t: Trace, i: nat, k: nat) returns (r: nat)
    requires Run(t) && i < k < |t.acts|
    requires t.acts[i].GenerationEnd? && Did(t, i) == FormalRevisionConflict
    requires t.acts[k].PromoteEnd? && Enabled(t.states[k], t.acts[k])
    requires forall j | i < j <= k :: t.states[j].draft != Absent
    requires forall j | i < j < k :: !Rebases(t.acts[j])
    ensures StartedAt(t, t.acts[i].id, r, i) && t.states[r].formal != t.states[i].formal
    ensures Did(t, k) == Adopted <==> t.acts[k].verdict.Accepted? && t.states[k].formal == t.states[r].formal
  {
    r := GenerationRace(t, i);
    BaseIsKept(t, i + 1, k, Checked(t.states[r].formal));
    assert HasBase(t.states[k], Checked(t.states[r].formal));
    PromotionIsAllOrNothing(t, k);
  }

  /** Accepting the current formal version, also its absence, lets the merged draft through when
      nobody writes in between. */
  lemma AcceptanceResolvesConflict(route: Route, s: State, merged: Json, final: Json)
    requires s.draft.Readable? && s.promoting.None? && !(s.draft.draft.formalEdit && Confirmed(s))
    ensures var patched := Perform(route, s, Patch(merged, s.draft.draft, Some(s.formal), None, true));
            && patched.1.Returned? && patched.1.draft.content == merged
            && var begun := Perform(route, patched.0, PromoteBegin(patched.1.draft));
               begun.1 == Started &&
               Perform(route, begun.0, PromoteEnd(Accepted(final))) ==
               (s.(formal := Written(route, final), draft := Absent), Adopted)
  {
  }

  // ----- Opening and promoting back -----

  /** Opening the formal plan and promoting the untouched draft: the validator sees the opened
      content, and when it accepts, what it accepted becomes the formal plan. */
  lemma UntouchedPromotion(route: Route, s: State, source: Option<string>, verdict: Verdict)
    requires s.draft == Absent && s.promoting.None? && !Confirmed(s) && DraftShape(route, s.formal).Some?
    ensures var taken := Perform(route, s, Open(source, true));
            && taken.1.Returned? && taken.1.draft.content == DraftShape(route, s.formal).value
            && var begun := Perform(route, taken.0, PromoteBegin(taken.1.draft));
               var done := Perform(route, begun.0, PromoteEnd(verdict));
               && begun.1 == Started
               && (done.1 == Adopted <==> verdict.Accepted?)
               && (done.1 == Adopted ==> done.0 == s.(formal := Written(route, verdict.content)))
               && (done.1 != Adopted ==> done.0.formal == s.formal && done.0.draft.Readable?)
  {
  }

  // ----- The workflow object -----

  /** One episode's plan, its draft, and the operations in flight. */
  class DraftWorkflow {
    const route: Route
    var formal: Fingerprint
    var confirmed: Fingerprint
    var draft: DraftFile
    var generations: map<nat, Baseline>
    var promoting: Option<Draft>

    constructor (route: Route, formal: Fingerprint, confirmed: Fingerprint, draft: DraftFile)
      ensures this.route == route && Now() == State(formal, confirmed, draft, map[], None)
    {
      this.route := route;
      this.formal, this.confirmed, this.draft := formal, confirmed, draft;
      generations, promoting := map[], None;
    }

    ghost function Now(): State
      reads this
    {
      State(formal, confirmed, draft, generations, promoting)
    }

    ghost predicate Does(before: State, a: Action, outcome: Outcome)
      reads this
    {
      (Now(), outcome) == Perform(route, before, a)
    }

    predicate IsConfirmed()
      reads this
      ensures IsConfirmed() == Confirmed(Now())
    {
      formal.Some? && confirmed == formal
    }

    predicate RejectsEdit(d: Draft)
      reads this
    {
      d.formalEdit && IsConfirmed()
    }

    method Open(source: Option<string>, sourceReadable: bool) returns (outcome: Outcome)
      requires promoting.None?
      modifies this`draft
      ensures Does(old(Now()), Action.Open(source, sourceReadable), outcome)
    {
      if draft.Readable? {
        return Returned(draft.draft);
      }
      if draft != Absent {
        return DraftNotFound;
      }
      if IsConfirmed() {
        return ScriptPlanConfirmed;
      }
      if source.Some? && !sourceReadable {
        return UnreadableSource;
      }
      var content := if formal.Some? && formal.value.Parsed? then route.toDraft(formal.value.json) else None;
      if content.None? {
        return DraftSourceMissing;
      }
      var recorded := if source == Some("") then None else source;
      var taken := Draft(content.value, [], recorded, Checked(formal), true);
      draft := Readable(taken);
      return Returned(taken);
    }

    method Patch(
      content: Json, revision: Draft, accept: Option<Fingerprint>, newSource: Option<Option<string>>,
      sourceReadable: bool) returns (outcome: Outcome)
      requires promoting.None?
      modifies this`draft
      ensures Does(old(Now()), Action.Patch(content, revision, accept, newSource, sourceReadable), outcome)
    {
      if !draft.Readable? {
        return DraftNotFound;
      }
      var next := draft.draft;
      if revision != next {
        return RevisionConflict;
      }
      if RejectsEdit(next) {
        return ScriptPlanConfirmed;
      }
      if newSource.Some? {
        if !sourceReadable {
          return UnreadableSource;
        }
        next := next.(source := newSource.value);
      }
      if accept.Some? {
        if accept.value != formal {
          return FormalRevisionConflict;
        }
        next := next.(base := Checked(formal));
      }
      next := next.(content := content);
      draft := Readable(next);
      return Returned(next);
    }

    /** Takes the draft lock and checks the draft; validation runs before `PromoteEnd`. */
    method PromoteBegin(revision: Draft) returns (outcome: Outcome)
      requires promoting.None?
      modifies this`promoting
      ensures Does(old(Now()), Action.PromoteBegin(revision), outcome)
    {
      if !draft.Readable? {
        return DraftNotFound;
      }
      if revision != draft.draft {
        return RevisionConflict;
      }
      if RejectsEdit(revision) {
        return ScriptPlanConfirmed;
      }
      promoting := Some(draft.draft);
      return Started;
    }

    /** Commits or reports, and releases the draft lock. */
    method PromoteEnd(verdict: Verdict) returns (outcome: Outcome)
      requires promoting.Some?
      modifies this`formal, this`draft, this`promoting
      ensures Does(old(Now()), Action.PromoteEnd(verdict), outcome)
    {
      var d := promoting.value;
      promoting := None;
      match verdict {
        case SourceUnreadable => outcome := UnreadableSource;
        case Malformed(problems) =>
          draft := Readable(d.(violations := problems));
          outcome := Refreshed;
        case Violating(content, problems) =>
          draft := Readable(d.(content := content, violations := problems));
          outcome := Refreshed;
        case Accepted(content) =>
          var written := WriteFormal(d.base, route.toFormal(content));
          if written {
            draft := Absent;
          }
          outcome := if written then Adopted else FormalRevisionConflict;
      }
    }

    /** The one place a plan is written: compared with its base, then replaced. */
    method WriteFormal(expected: Base, content: Json) returns (written: bool)
      modifies this`formal
      ensures written == Matches(expected, old(formal))
      ensures formal == if written then Some(Parsed(content)) else old(formal)
    {
      if expected.Checked? && expected.fingerprint != formal {
        return false;
      }
      formal := Some(Parsed(content));
      return true;
    }

    method Discard(revision: Option<Draft>) returns (outcome: Outcome)
      requires promoting.None?
      modifies this`draft
      ensures Does(old(Now()), Action.Discard(revision), outcome)
    {
      if draft.Readable? && revision != Some(draft.draft) {
        return RevisionConflict;
      }
      outcome := Discarded(draft != Absent);
      draft := Absent;
    }

    method GenerationStart(id: nat)
      requires promoting.None? && id !in generations
      modifies this`generations
      ensures Does(old(Now()), Action.GenerationStart(id), Started)
    {
      generations := generations[id := Baseline(draft, formal)];
    }

    method GenerationEnd(id: nat, output: Generated, source: Option<string>) returns (outcome: Outcome)
      requires promoting.None? && id in generations
      modifies this`formal, this`draft, this`generations
      ensures Does(old(Now()), Action.GenerationEnd(id, output, source), outcome)
    {
      var read := generations[id];
      generations := generations - {id};
      if draft != read.draft {
        return RevisionConflict;
      }
      match output {
        case Invalid(content, problems) =>
          var recorded := if source == Some("") then None else source;
          draft := Readable(Draft(content, problems, recorded, Checked(read.formal), false));
          outcome := Refreshed;
        case Valid(content) =>
          var written := WriteFormal(Checked(read.formal), route.toFormal(content));
          if written {
            draft := Absent;
            outcome := Adopted;
          } else {
            var note := FormalChanged(read.formal, formal);
            draft := Readable(Draft(content, [note], source, Checked(read.formal), false));
            outcome := FormalRevisionConflict;
          }
      }
    }

    method WebSave(content: Json, expected: Option<Fingerprint>) returns (outcome: Outcome)
      modifies this`formal
      ensures Does(old(Now()), Action.WebSave(content, expected), outcome)
    {
      if draft.Readable? && draft.draft.formalEdit {
        return AgentOwned;
      }
      if IsConfirmed() {
        return ScriptPlanConfirmed;
      }
      var base := if expected.Some? && expected.value.Some? then Checked(expected.value) else Unchecked;
      var written := WriteFormal(base, content);
      return if written then Adopted else FormalRevisionConflict;
    }

    /** A creator repairs a draft by hand: patch, then promote. The agent's editable copy is refused;
        a draft that still violates stays with the report, and any other failure keeps the text. */
    method Save(content: Json, revision: Draft, verdict: Verdict) returns (outcome: Outcome)
      requires promoting.None?
      modifies this`formal, this`draft, this`promoting
      ensures promoting.None?
      ensures old(draft) != Readable(revision) || revision.formalEdit ==>
                Now() == old(Now()) && outcome in {DraftNotFound, RevisionConflict, AgentOwned}
      ensures old(draft) == Readable(revision) && !revision.formalEdit ==>
                if verdict.Accepted? && Matches(revision.base, old(formal))
                then outcome == Adopted && draft == Absent && formal == Written(route, verdict.content)
                else
                  && outcome != Adopted && formal == old(formal) && draft.Readable?
                  && draft.draft.base == revision.base && !draft.draft.formalEdit
                  && (!verdict.Violating? ==> draft.draft.content == content)
    {
      if draft.Readable? && draft.draft.formalEdit {
        return AgentOwned;
      }
      outcome := Patch(content, revision, None, None, true);
      if !outcome.Returned? {
        return;
      }
      outcome := PromoteBegin(outcome.draft);
      outcome := PromoteEnd(verdict);
    }
  }
}
