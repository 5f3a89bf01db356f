/** Activating a complete artifact target state and advancing the project schema last
    (lib/artifacts/artifact_activation.py). Other writers may act between any two steps, and any
    step may fail. */
module Activation {
  import opened ArtifactManifest

  /** project.json: its schema version and everything else. */
  datatype Project = Project(schema: nat, rest: string)

  /** What activation reads and writes: the manifest file, project.json and the other inputs. */
  datatype World = World(file: Option<Manifest>, project: Project, inputs: map<string, string>)

  /** A target state with the bytes it was planned from. */
  datatype Plan = Plan(entries: Manifest, project: Project, inputs: map<string, string>)

  /** Where the activation stands; `previous` is the manifest it read before replacing it. */
  datatype Stage =
    | Preflight
    | Locked
    | BackingUp
    | Reading
    | Replacing(previous: Manifest)
    | Verifying(previous: Manifest, changed: bool)
    | RollingBack(previous: Manifest)
    | Inspecting(previous: Manifest)
    | Committing
    | Done
    | Raised
    | RaisedIncomplete

  datatype State = State(stage: Stage, world: World)

  datatype Action = Proceed | Fail | Foreign(world: World)

  predicate Steady(plan: Plan, w: World) {
    && w.project == plan.project
    && forall path <- plan.inputs :: path in w.inputs && w.inputs[path] == plan.inputs[path]
  }

  /** One step of the activation. */
  function Advance(plan: Plan, target: nat, stage: Stage, w: World): State {
    match stage
    case Preflight =>
      State(if plan.project.schema + 1 == target && Steady(plan, w) then Locked else Raised, w)
    case Locked => State(if Steady(plan, w) then BackingUp else Raised, w)
    case BackingUp => State(Reading, w)
    case Reading => State(Replacing(Held(w.file)), w)
    case Replacing(previous) =>
      State(Verifying(previous, w.file != Some(plan.entries)), w.(file := Some(plan.entries)))
    case Verifying(previous, changed) =>
      State(if Steady(plan, w) then Committing else if changed then RollingBack(previous) else Raised, w)
    case RollingBack(previous) =>
      State(if Held(w.file) == plan.entries then Raised else Inspecting(previous),
            w.(file := Swapped(w.file, plan.entries, previous)))
    case Inspecting(previous) => State(if Held(w.file) == previous then Raised else RaisedIncomplete, w)
    case Committing => State(Done, w.(project := plan.project.(schema := target)))
    case _ => State(stage, w)
  }

  /** Where a failing step leaves the activation. */
  function Failed(stage: Stage): Stage {
    match stage
    case Verifying(previous, changed) => if changed then RollingBack(previous) else Raised
    case RollingBack(_) => RaisedIncomplete
    case Inspecting(_) => RaisedIncomplete
    case Done => Done
    case RaisedIncomplete => RaisedIncomplete
    case _ => Raised
  }

  function Step(plan: Plan, target: nat, s: State, a: Action): State {
    match a
    case Proceed => Advance(plan, target, s.stage, s.world)
    case Fail => State(Failed(s.stage), s.world)
    case Foreign(world) => State(s.stage, world)
  }

  datatype Trace = Trace(plan: Plan, target: nat, states: seq<State>, acts: seq<Action>)

  ghost predicate Run(t: Trace) {
    && |t.states| == |t.acts| + 1 && t.states[0].stage == Preflight
    && forall i | 0 <= i < |t.acts| :: t.states[i + 1] == Step(t.plan, t.target, t.states[i], t.acts[i])
  }

  /** The activation's own step `i` was taken at a stage and did not fail. */
  ghost predicate Took(t: Trace, i: nat, stage: Stage)
    requires Run(t)
  {
    i < |t.acts| && t.acts[i] == Proceed && t.states[i].stage == stage
  }

  // ----- What has happened by each stage -----

  /** The manifest was read at `s`, and the activation has been about to replace it ever since. */
  ghost predicate ReadAt(t: Trace, s: nat, k: nat, previous: Manifest)
    requires Run(t) && k < |t.states|
  {
    && s < k && Took(t, s, Reading) && Held(t.states[s].world.file) == previous
    && forall i: nat | s < i <= k :: t.states[i].stage == Replacing(previous)
  }

  /** The manifest was read at `s` and replaced by the plan at `r`. */
  ghost predicate Replaced(t: Trace, s: nat, r: nat, k: nat, previous: Manifest)
    requires Run(t) && k < |t.states|
  {
    && s < r < k && ReadAt(t, s, r, previous)
    && Took(t, r, Replacing(previous)) && t.states[r + 1].world.file == Some(t.plan.entries)
  }

  /** After the replacement, the check at `c` found every input as planned. */
  ghost predicate Verified(t: Trace, s: nat, r: nat, c: nat, k: nat, previous: Manifest)
    requires Run(t) && k < |t.states|
  {
    && c < k && Replaced(t, s, r, c, previous)
    && t.acts[c] == Proceed && t.states[c].stage.Verifying? && Steady(t.plan, t.states[c].world)
  }

  ghost predicate Explained(t: Trace, k: nat)
    requires Run(t) && k < |t.states|
  {
    match t.states[k].stage
    case Replacing(previous) => exists s :: ReadAt(t, s, k, previous)
    case Verifying(previous, _) => exists s, r :: Replaced(t, s, r, k, previous)
    case RollingBack(previous) => exists s, r :: Replaced(t, s, r, k, previous)
    case Inspecting(previous) => exists s, r :: Replaced(t, s, r, k, previous)
    case Committing => exists s, r, c, previous :: Verified(t, s, r, c, k, previous)
    case Done => exists s, r, c, previous :: Verified(t, s, r, c, k, previous)
    case _ => true
  }

  lemma {:induction false} EveryStageIsExplained(t: Trace, k: nat)
    requires Run(t) && k < |t.states|
    ensures Explained(t, k)
  {
    if k > 0 {
      EveryStageIsExplained(t, k - 1);
      var was, now := t.states[k - 1].stage, t.states[k].stage;
      if was.Verifying? || was.RollingBack? || was.Inspecting? {
        AfterReplaced(t, k);
      } else if was.Committing? || was.Done? {
        var s, r, c, previous :| Verified(t, s, r, c, k - 1, previous);
        assert Verified(t, s, r, c, k, previous);
      } else if was.Replacing? {
        AfterReading(t, k);
      } else if now.Replacing? {
        assert ReadAt(t, k - 1, k, now.previous);
      }
    }
  }

  lemma AfterReading(t: Trace, k: nat)
    requires Run(t) && 0 < k < |t.states| && Explained(t, k - 1) && t.states[k - 1].stage.Replacing?
    ensures Explained(t, k)
  {
    var previous := t.states[k - 1].stage.previous;
    var s :| ReadAt(t, s, k - 1, previous);
    if t.states[k].stage.Verifying? {
      assert Replaced(t, s, k - 1, k, previous);
    } else if t.states[k].stage.Replacing? {
      assert ReadAt(t, s, k, previous);
    }
  }

  lemma AfterReplaced(t: Trace, k: nat)
    requires Run(t) && 0 < k < |t.states| && Explained(t, k - 1)
    requires var was := t.states[k - 1].stage; was.Verifying? || was.RollingBack? || was.Inspecting?
    ensures Explained(t, k)
  {
    var previous := t.states[k - 1].stage.previous;
    var s, r :| Replaced(t, s, r, k - 1, previous);
    assert Replaced(t, s, r, k, previous);
    if t.states[k].stage.Committing? {
      assert Verified(t, s, r, k - 1, k, previous);
    }
  }

  // ----- The results -----

  /** The activation changes project.json in one step only, and before it the manifest was replaced by
      the plan and a later check found project.json, still one version behind, and all inputs as
      planned. */
  lemma SchemaComesLast(t: Trace, k: nat) returns (r: nat, c: nat)
    requires Run(t) && k < |t.acts| && t.acts[k] == Proceed
    requires t.states[k + 1].world.project != t.states[k].world.project || t.states[k + 1].stage == Done
    requires t.states[k].stage != Done
    ensures t.states[k].stage == Committing && t.states[k + 1].stage == Done
    ensures t.states[k + 1].world.project == t.plan.project.(schema := t.target)
    ensures r < c < k && t.states[r].stage.Replacing? && t.acts[r] == Proceed
    ensures t.states[r + 1].world.file == Some(t.plan.entries)
    ensures t.states[c].stage.Verifying? && Steady(t.plan, t.states[c].world)
    ensures t.states[c].world.project.schema + 1 == t.target
  {
    EveryStageIsExplained(t, k);
    var s, r', c', previous :| Verified(t, s, r', c', k, previous);
    r, c := r', c';
    PlanIsOneBehind(t, c);
  }

  lemma {:induction false} PlanIsOneBehind(t: Trace, k: nat)
    requires Run(t) && k < |t.states|
    ensures t.states[k].stage !in {Preflight, Raised} ==> t.plan.project.schema + 1 == t.target
  {
    if k > 0 {
      PlanIsOneBehind(t, k - 1);
    }
  }

  /** The activation writes the manifest when it installs the plan and when it takes exactly that plan
      back out, restoring what it had read. A manifest another writer put there since then is never
      overwritten. */
  lemma OwnManifestWrites(t: Trace, k: nat) returns (s: nat, r: nat)
    requires Run(t) && k < |t.acts| && t.acts[k] == Proceed
    requires t.states[k + 1].world.file != t.states[k].world.file && !t.states[k].stage.Replacing?
    ensures t.states[k].stage.RollingBack? && t.states[k + 1].stage == Raised
    ensures Held(t.states[k].world.file) == t.plan.entries
    ensures s < r < k && t.states[s].stage == Reading && t.states[r].stage.Replacing?
    ensures Held(t.states[k + 1].world.file) == Held(t.states[s].world.file)
  {
    EveryStageIsExplained(t, k);
    s, r :| Replaced(t, s, r, k, t.states[k].stage.previous);
  }

  /** A rollback that takes the plan out restores what was there before the replacement if and only if
      that is what had been read; if it is not, another writer's manifest from in between is lost. */
  lemma RollbackLosesExactlyUnreadWrites(t: Trace, k: nat) returns (s: nat, r: nat)
    requires Run(t) && k < |t.acts| && t.acts[k] == Proceed && t.states[k].stage.RollingBack?
    requires Held(t.states[k].world.file) == t.plan.entries
    ensures s < r < k && t.states[s].stage == Reading && t.states[r].stage.Replacing?
    ensures Held(t.states[k + 1].world.file) == Held(t.states[r].world.file) <==>
            Held(t.states[r].world.file) == Held(t.states[s].world.file)
    ensures Held(t.states[r].world.file) == Held(t.states[s].world.file) || WrittenBetween(t, s, r)
  {
    EveryStageIsExplained(t, k);
    var previous := t.states[k].stage.previous;
    s, r :| Replaced(t, s, r, k, previous);
    UnwrittenStays(t, s, r, previous);
  }

  ghost predicate WritesManifest(t: Trace, i: nat)
    requires Run(t) && i < |t.acts|
  {
    t.acts[i].Foreign? && t.acts[i].world.file != t.states[i].world.file
  }

  ghost predicate WrittenBetween(t: Trace, s: nat, k: nat)
    requires Run(t) && k < |t.states|
  {
    exists i: nat :: s < i < k && WritesManifest(t, i)
  }

  lemma {:induction false} UnwrittenStays(t: Trace, s: nat, k: nat, previous: Manifest)
    requires Run(t) && k < |t.states| && ReadAt(t, s, k, previous)
    ensures WrittenBetween(t, s, k) || t.states[k].world.file == t.states[s].world.file
  {
    if s + 1 < k {
      UnwrittenStays(t, s, k - 1, previous);
      if WrittenBetween(t, s, k - 1) {
        var i: nat :| s < i < k - 1 && WritesManifest(t, i);
        assert s < i < k && WritesManifest(t, i);
      } else if t.states[k].world.file != t.states[k - 1].world.file {
        assert WritesManifest(t, k - 1);
      }
    }
  }

  /** Writing the new schema version failed. */
  ghost predicate CommitFailed(t: Trace, k: nat)
    requires Run(t) && k < |t.states|
  {
    exists i: nat :: i < k && t.states[i].stage == Committing && t.acts[i] == Fail
  }

  /** Which claims the manifest holds at each stage when nobody else writes it after it was read at `s`. */
  lemma {:induction false} ManifestByStage(t: Trace, s: nat, k: nat)
    requires Run(t) && s < k < |t.states| && Took(t, s, Reading) && !WrittenBetween(t, s, k)
    ensures var held, read := Held(t.states[k].world.file), Held(t.states[s].world.file);
      match t.states[k].stage
      case Replacing(previous) => held == read && previous == read
      case Verifying(previous, changed) => held == t.plan.entries && previous == read && (!changed ==> held == read)
      case RollingBack(previous) => held == t.plan.entries && previous == read
      case Committing => held == t.plan.entries
      case Done => held == t.plan.entries
      case Raised => held == if CommitFailed(t, k) then t.plan.entries else read
      case RaisedIncomplete => held == t.plan.entries
      case _ => false
    ensures t.states[k].stage != Raised ==> !CommitFailed(t, k)
  {
    if k == s + 1 {
      NoCommitYet(t, s);
    } else {
      assert forall i: nat | s < i < k :: !WritesManifest(t, i);
      ManifestByStage(t, s, k - 1);
      assert !WritesManifest(t, k - 1);
      CommitFailedStep(t, k);
    }
  }

  lemma CommitFailedStep(t: Trace, k: nat)
    requires Run(t) && 0 < k < |t.states|
    ensures CommitFailed(t, k) <==>
            CommitFailed(t, k - 1) || (t.states[k - 1].stage == Committing && t.acts[k - 1] == Fail)
  {
    if t.states[k - 1].stage == Committing && t.acts[k - 1] == Fail {
      assert k - 1 < k && t.states[k - 1].stage == Committing && t.acts[k - 1] == Fail;
    }
  }

  /** Before the manifest is read nothing was committed. */
  lemma NoCommitYet(t: Trace, s: nat)
    requires Run(t) && Took(t, s, Reading)
    ensures !CommitFailed(t, s + 1)
  {
    if i: nat :| i < s + 1 && t.states[i].stage == Committing && t.acts[i] == Fail {
      RaisedIsFinal(t, i + 1, s);
    }
  }

  lemma {:induction false} RaisedIsFinal(t: Trace, i: nat, k: nat)
    requires Run(t) && i <= k < |t.states| && t.states[i].stage == Raised
    ensures t.states[k].stage == Raised
  {
    if i < k {
      RaisedIsFinal(t, i, k - 1);
    }
  }

  /** With no other writer of the manifest since it was read, a refused activation leaves the claims as
      they were read if and only if the step that failed was not the writing of the schema version (or
      there was nothing to change). */
  lemma RefusedActivationRestoresIff(t: Trace, s: nat, k: nat)
    requires Run(t) && s < k < |t.states| && Took(t, s, Reading) && !WrittenBetween(t, s, k)
    requires t.states[k].stage == Raised
    ensures Held(t.states[k].world.file) == Held(t.states[s].world.file) <==>
            !CommitFailed(t, k) || Held(t.states[s].world.file) == t.plan.entries
    ensures CommitFailed(t, k) ==> Held(t.states[k].world.file) == t.plan.entries
  {
    ManifestByStage(t, s, k);
  }

  /** An activation that never got to read the manifest never wrote it. */
  lemma {:induction false} UnreadIsUnwritten(t: Trace, k: nat)
    requires Run(t) && k < |t.states| && forall i: nat | i < k :: !Took(t, i, Reading)
    ensures t.states[k].stage in {Preflight, Locked, BackingUp, Reading, Raised}
    ensures k > 0 && t.states[k].world.file != t.states[k - 1].world.file ==> WritesManifest(t, k - 1)
  {
    if k > 0 {
      UnreadIsUnwritten(t, k - 1);
      assert !Took(t, k - 1, Reading);
    }
  }

  /** An incomplete rollback is reported only when a rollback step failed or another writer changed
      the manifest after the activation had replaced it. */
  lemma {:induction false} IncompleteHasACause(t: Trace, k: nat) returns (i: nat)
    requires Run(t) && k < |t.states| && t.states[k].stage == RaisedIncomplete
    ensures i < k && (t.states[i].stage.RollingBack? || t.states[i].stage.Inspecting? || t.states[i].stage.Verifying?)
    ensures t.acts[i] == Fail || (t.acts[i].Foreign? && t.acts[i].world.file != t.states[i].world.file)
  {
    if t.states[k - 1].stage == RaisedIncomplete {
      i := IncompleteHasACause(t, k - 1);
    } else if t.acts[k - 1] == Fail {
      i := k - 1;
    } else {
      i := InspectedAfterChange(t, k - 1);
    }
  }

  lemma {:induction false} InspectedAfterChange(t: Trace, k: nat) returns (i: nat)
    requires Run(t) && k < |t.states|
    requires t.states[k].stage.Inspecting? ||
             ((t.states[k].stage.RollingBack? || t.states[k].stage.Verifying?) &&
              Held(t.states[k].world.file) != t.plan.entries)
    ensures i < k && (t.states[i].stage.RollingBack? || t.states[i].stage.Inspecting? || t.states[i].stage.Verifying?)
    ensures t.acts[i].Foreign? && t.acts[i].world.file != t.states[i].world.file
  {
    if t.acts[k - 1].Foreign? && t.acts[k - 1].world.file != t.states[k - 1].world.file {
      i := k - 1;
    } else {
      i := InspectedAfterChange(t, k - 1);
    }
  }

  /** What the rollback reports, in every run and whoever else writes: a plain refusal only when the claims
      are again those that were read, an incomplete rollback exactly when its own step fails or the
      inspection finds other claims. */
  lemma RollbackReportIsExact(t: Trace, k: nat) returns (s: nat)
    requires Run(t) && k < |t.acts| && (t.states[k].stage.RollingBack? || t.states[k].stage.Inspecting?)
    requires !t.acts[k].Foreign?
    ensures s < k && Took(t, s, Reading)
    ensures t.states[k + 1].stage == Raised ==>
      Held(t.states[k + 1].world.file) == Held(t.states[s].world.file)
    ensures t.states[k + 1].stage == RaisedIncomplete <==>
      t.acts[k] == Fail ||
      (t.states[k].stage.Inspecting? && Held(t.states[k].world.file) != Held(t.states[s].world.file))
    ensures t.states[k].stage.RollingBack? && t.acts[k] == Proceed ==>
      (t.states[k + 1].stage == Raised <==> Held(t.states[k].world.file) == t.plan.entries)
    ensures t.states[k].stage.RollingBack? && t.states[k + 1].stage == Raised ==>
      (Held(t.states[s].world.file) == map[] != t.plan.entries ==> t.states[k + 1].world.file == None)
  {
    EveryStageIsExplained(t, k);
    var r: nat;
    s, r :| Replaced(t, s, r, k, t.states[k].stage.previous);
  }

  /** The manifest was replaced at `r`, and that changed it. */
  ghost predicate ChangedAt(t: Trace, r: nat, k: nat)
    requires Run(t) && k < |t.states|
  {
    r < k && r < |t.acts| && t.acts[r] == Proceed && t.states[r].stage.Replacing?
    && t.states[r].world.file != Some(t.plan.entries)
  }

  /** Only what the activation changed is taken back out. */
  lemma {:induction false} RollbackUndoesOwnChange(t: Trace, k: nat) returns (r: nat)
    requires Run(t) && k < |t.states|
    requires match t.states[k].stage
      case Verifying(_, changed) => changed
      case RollingBack(_) => true
      case Inspecting(_) => true
      case _ => false
    ensures ChangedAt(t, r, k)
  {
    if t.states[k - 1].stage.Replacing? {
      r := k - 1;
    } else {
      r := RollbackUndoesOwnChange(t, k - 1);
    }
  }

  /** When the check after the replacement fails, a change is rolled back and anything else is a plain
      refusal; an incomplete rollback is reported by a rollback only. */
  lemma AfterAFailedCheck(t: Trace, k: nat)
    requires Run(t) && k < |t.acts|
    ensures t.states[k].stage.Verifying? && t.states[k].stage.changed && t.acts[k] == Fail ==>
      t.states[k + 1].stage == RollingBack(t.states[k].stage.previous)
    ensures t.states[k].stage.Verifying? && !t.states[k].stage.changed && t.acts[k] == Fail ==>
      t.states[k + 1].stage == Raised
    ensures t.states[k + 1].stage == RaisedIncomplete ==>
      t.states[k].stage.RollingBack? || t.states[k].stage.Inspecting? || t.states[k].stage == RaisedIncomplete
  {
  }

  /** The check at `i`, made at that stage, found everything as planned. */
  ghost predicate FoundSteady(t: Trace, i: nat, stage: Stage)
    requires Run(t)
  {
    Took(t, i, stage) && Steady(t.plan, t.states[i].world)
  }

  /** The manifest is read only after the preflight and, under the lock, a second check. */
  lemma {:induction false} ReadAfterTwoChecks(t: Trace, k: nat) returns (p: nat, l: nat)
    requires Run(t) && k < |t.states| && t.states[k].stage !in {Preflight, Locked, Raised}
    ensures p < l < k && FoundSteady(t, p, Preflight) && FoundSteady(t, l, Locked)
  {
    if t.states[k - 1].stage == Locked {
      l := k - 1;
      p := LockedAfterPreflight(t, l);
    } else {
      p, l := ReadAfterTwoChecks(t, k - 1);
    }
  }

  lemma {:induction false} LockedAfterPreflight(t: Trace, k: nat) returns (p: nat)
    requires Run(t) && k < |t.states| && t.states[k].stage == Locked
    ensures p < k && FoundSteady(t, p, Preflight)
  {
    if t.states[k - 1].stage == Preflight {
      p := k - 1;
    } else {
      p := LockedAfterPreflight(t, k - 1);
    }
  }

  // ----- Runs in which claims are not restored -----

  function LastOf(t: Trace): State
    requires t.states != []
  {
    t.states[|t.states| - 1]
  }

  /** The run taken one step further. */
  function Then(t: Trace, a: Action): Trace
    requires t.states != []
  {
    t.(states := t.states + [Step(t.plan, t.target, LastOf(t), a)], acts := t.acts + [a])
  }

  /** Nobody but the activation acts. */
  ghost predicate Unaided(t: Trace) {
    forall i | 0 <= i < |t.acts| :: !t.acts[i].Foreign?
  }

  lemma ThenIsARun(t: Trace, a: Action)
    requires Run(t)
    ensures Run(Then(t, a)) && LastOf(Then(t, a)) == Step(t.plan, t.target, LastOf(t), a)
    ensures t.states <= Then(t, a).states && t.acts <= Then(t, a).acts
  {
    var u := Then(t, a);
    forall i | 0 <= i < |u.acts|
      ensures u.states[i + 1] == Step(u.plan, u.target, u.states[i], u.acts[i])
    {
      if i < |t.acts| { assert t.states[i + 1] == Step(t.plan, t.target, t.states[i], t.acts[i]); }
    }
  }

  /** The run from the start up to the point where the manifest is about to be replaced. */
  lemma ReadRun(plan: Plan, target: nat, w: World) returns (t: Trace)
    requires plan.project.schema + 1 == target && Steady(plan, w)
    ensures Run(t) && t.plan == plan && t.target == target && t.states[0].world == w
    ensures |t.acts| == 4 && Took(t, 3, Reading) && t.states[3].world == w && Unaided(t)
    ensures LastOf(t) == State(Replacing(Held(w.file)), w) && forall a <- t.acts :: a == Proceed
  {
    t := Trace(plan, target, [State(Preflight, w)], []);
    for n := 0 to 4
      invariant Run(t) && |t.acts| == n && t.plan == plan && t.target == target && Unaided(t)
      invariant t.states[0].world == w && LastOf(t).world == w && forall a <- t.acts :: a == Proceed
      invariant LastOf(t).stage == [Preflight, Locked, BackingUp, Reading, Replacing(Held(w.file))][n]
      invariant n == 4 ==> Took(t, 3, Reading) && t.states[3].world == w
    {
      ThenIsARun(t, Proceed);
      t := Then(t, Proceed);
    }
  }

  /** A manifest written by another writer between the activation's reading and its replacing is
      overwritten, and the rollback does not bring it back. */
  lemma WriteBeforeReplaceIsLost(plan: Plan, target: nat, w: World, theirs: Manifest, drifted: Project)
    returns (t: Trace, k: nat)
    requires plan.project.schema + 1 == target && Steady(plan, w) && drifted != plan.project
    requires Held(w.file) != plan.entries && theirs != plan.entries && theirs != Held(w.file)
    ensures Run(t) && k < |t.acts| && t.plan == plan && t.states[0].world == w
    ensures t.acts[k].Foreign? && Held(t.states[k + 1].world.file) == theirs
    ensures LastOf(t).stage == Raised && Held(LastOf(t).world.file) == Held(w.file)
  {
    t := ReadRun(plan, target, w);
    k := |t.acts|;
    var overwritten := Foreign(w.(file := Some(theirs)));
    ThenIsARun(t, overwritten);
    t := Then(t, overwritten);
    t := LostRun(t, drifted, Held(w.file));
  }

  /** Replacing the manifest, finding project.json changed, and taking the plan back out. */
  lemma LostRun(t: Trace, drifted: Project, previous: Manifest) returns (u: Trace)
    requires Run(t) && LastOf(t).stage == Replacing(previous) && drifted != t.plan.project
    requires Held(LastOf(t).world.file) != t.plan.entries
    ensures Run(u) && u.plan == t.plan && t.states <= u.states && t.acts <= u.acts
    ensures LastOf(u).stage == Raised && Held(LastOf(u).world.file) == previous
  {
    ThenIsARun(t, Proceed);
    u := Then(t, Proceed);
    var changed := Foreign(LastOf(u).world.(project := drifted));
    ThenIsARun(u, changed);
    u := Then(u, changed);
    ThenIsARun(u, Proceed);
    u := Then(u, Proceed);
    ThenIsARun(u, Proceed);
    u := Then(u, Proceed);
  }

  /** When writing the schema version fails, the activation is refused and the plan's claims stay, even
      with no other writer. */
  lemma FailedSchemaWriteKeepsPlan(plan: Plan, target: nat, w: World) returns (t: Trace)
    requires plan.project.schema + 1 == target && Steady(plan, w) && Held(w.file) != plan.entries
    ensures Run(t) && t.plan == plan && t.states[0].world == w && Took(t, 3, Reading)
    ensures Unaided(t) && CommitFailed(t, |t.acts|)
    ensures LastOf(t).stage == Raised && LastOf(t).world.project == w.project
    ensures Held(LastOf(t).world.file) == plan.entries != Held(w.file)
  {
    t := ReadRun(plan, target, w);
    ThenIsARun(t, Proceed);
    t := Then(t, Proceed);
    ThenIsARun(t, Proceed);
    t := Then(t, Proceed);
    ThenIsARun(t, Fail);
    assert LastOf(t).stage == Committing && Then(t, Fail).acts[|t.acts|] == Fail;
    t := Then(t, Fail);
  }

  /** With nothing in its way an activation succeeds: the plan's claims, and the next schema version. */
  lemma UndisturbedActivationSucceeds(plan: Plan, target: nat, w: World) returns (t: Trace)
    requires plan.project.schema + 1 == target && Steady(plan, w)
    ensures Run(t) && t.plan == plan && t.target == target && t.states[0].world == w
    ensures (forall a <- t.acts :: a == Proceed) && LastOf(t).stage == Done
    ensures LastOf(t).world == w.(file := Some(plan.entries), project := plan.project.(schema := target))
  {
    t := ReadRun(plan, target, w);
    for n := 0 to 3
      invariant Run(t) && t.plan == plan && t.target == target && t.states[0].world == w
      invariant forall a <- t.acts :: a == Proceed
      invariant LastOf(t).stage == [Replacing(Held(w.file)), Verifying(Held(w.file), w.file != Some(plan.entries)),
                                    Committing, Done][n]
      invariant LastOf(t).world == if n == 0 then w else if n < 3 then w.(file := Some(plan.entries))
                                   else w.(file := Some(plan.entries), project := plan.project.(schema := target))
    {
      ThenIsARun(t, Proceed);
      t := Then(t, Proceed);
    }
  }

  // ----- The activation itself -----

  /** What happens before step `n`: other writers act, and the step may fail. */
  type Environment = (nat, World) -> (World, bool)

  function Around(plan: Plan, target: nat, env: Environment, n: nat, s: State): State {
    var (w, fails) := env(n, s.world);
    if fails then State(Failed(s.stage), w) else Advance(plan, target, s.stage, w)
  }

  function After(plan: Plan, target: nat, env: Environment, n: nat, s: State): State {
    if n == 0 then s else Around(plan, target, env, n - 1, After(plan, target, env, n - 1, s))
  }

  predicate Final(stage: Stage) {
    stage in {Done, Raised, RaisedIncomplete}
  }

  /** A run in an environment is a run. */
  lemma {:induction false} AfterIsARun(
    plan: Plan, target: nat, env: Environment, n: nat, w: World) returns (t: Trace)
    ensures Run(t) && t.plan == plan && t.target == target && |t.acts| == 2 * n
    ensures t.states[0] == State(Preflight, w)
    ensures t.states[2 * n] == After(plan, target, env, n, State(Preflight, w))
  {
    if n == 0 {
      t := Trace(plan, target, [State(Preflight, w)], []);
    } else {
      var u := AfterIsARun(plan, target, env, n - 1, w);
      var s := u.states[2 * n - 2];
      var (foreign, fails) := env(n - 1, s.world);
      var mid, act := State(s.stage, foreign), if fails then Fail else Proceed;
      t := Trace(plan, target, u.states + [mid, Step(plan, target, mid, act)], u.acts + [Foreign(foreign), act]);
      forall i | 0 <= i < |t.acts|
        ensures t.states[i + 1] == Step(t.plan, t.target, t.states[i], t.acts[i])
      {
        if i < |u.acts| { assert u.states[i + 1] == Step(u.plan, u.target, u.states[i], u.acts[i]); }
      }
    }
  }

  class ProjectFiles {
    var file: Option<Manifest>
    var project: Project
    var inputs: map<string, string>

    ghost function Now(): World
      reads this
    {
      World(file, project, inputs)
    }

    method Interfere(env: Environment, n: nat) returns (fails: bool)
      modifies this
      ensures (Now(), fails) == env(n, old(Now()))
    {
      var (w, f) := env(n, World(file, project, inputs));
      file, project, inputs := w.file, w.project, w.inputs;
      return f;
    }

    predicate AsPlanned(plan: Plan)
      reads this
      ensures AsPlanned(plan) == Steady(plan, Now())
    {
      project == plan.project && forall path <- plan.inputs :: path in inputs && inputs[path] == plan.inputs[path]
    }

    /** Preflight, then under the lock: check again, back up, replace the manifest, check once more, and
        only then write the new schema version. A drift found by the last check rolls back. */
    method Activate(plan: Plan, target: nat, env: Environment) returns (end: Stage, ghost steps: nat)
      modifies this
      ensures Final(end)
      ensures State(end, Now()) == After(plan, target, env, steps, State(Preflight, old(Now())))
    {
      ghost var start := State(Preflight, Now());
      steps := 1;
      var failed := Interfere(env, 0);
      if failed || plan.project.schema + 1 != target || !AsPlanned(plan) {
        return Raised, steps;
      }
      assert After(plan, target, env, 1, start) == State(Locked, Now());
      steps := 2;
      failed := Interfere(env, 1);
      if failed || !AsPlanned(plan) {
        return Raised, steps;
      }
      assert After(plan, target, env, 2, start) == State(BackingUp, Now());
      steps := 3;
      failed := Interfere(env, 2);
      if failed {
        return Raised, steps;
      }
      assert After(plan, target, env, 3, start) == State(Reading, Now());
      end, steps := Install(plan, target, env, start);
    }

    /** Replaces the manifest, checks once more, and writes the schema version or rolls back. */
    method Install(plan: Plan, target: nat, env: Environment, ghost start: State)
      returns (end: Stage, ghost steps: nat)
      requires After(plan, target, env, 3, start) == State(Reading, Now())
      modifies this
      ensures Final(end)
      ensures State(end, Now()) == After(plan, target, env, steps, start)
    {
      steps := 4;
      var failed := Interfere(env, 3);
      if failed {
        return Raised, steps;
      }
      var previous := if file.Some? then file.value else map[];
      assert After(plan, target, env, 4, start) == State(Replacing(previous), Now());
      steps := 5;
      failed := Interfere(env, 4);
      if failed {
        return Raised, steps;
      }
      var changed := file != Some(plan.entries);
      file := Some(plan.entries);
      assert After(plan, target, env, 5, start) == State(Verifying(previous, changed), Now());
      steps := 6;
      failed := Interfere(env, 5);
      if failed || !AsPlanned(plan) {
        if !changed {
          return Raised, steps;
        }
        assert After(plan, target, env, 6, start) == State(RollingBack(previous), Now());
        end, steps := RollBack(plan, target, env, previous, start);
        return;
      }
      assert After(plan, target, env, 6, start) == State(Committing, Now());
      steps := 7;
      failed := Interfere(env, 6);
      if failed {
        return Raised, steps;
      }
      project := plan.project.(schema := target);
      return Done, steps;
    }

    method RollBack(plan: Plan, target: nat, env: Environment, previous: Manifest, ghost start: State)
      returns (end: Stage, ghost steps: nat)
      requires After(plan, target, env, 6, start) == State(RollingBack(previous), Now())
      modifies this
      ensures Final(end)
      ensures State(end, Now()) == After(plan, target, env, steps, start)
    {
      steps := 7;
      var failed := Interfere(env, 6);
      if failed {
        return RaisedIncomplete, steps;
      }
      var held := if file.Some? then file.value else map[];
      if held == plan.entries {
        if held != previous {
          file := if previous == map[] then None else Some(previous);
        }
        return Raised, steps;
      }
      assert After(plan, target, env, 7, start) == State(Inspecting(previous), Now());
      steps := 8;
      failed := Interfere(env, 7);
      if failed {
        return RaisedIncomplete, steps;
      }
      held := if file.Some? then file.value else map[];
      return if held == previous then Raised else RaisedIncomplete, steps;
    }
  }
}
