# ArcReel core logic in Dafny

A model of the state-changing core of ArcReel, with proofs. Twenty-two modules, one file each:

| module | models |
|---|---|
| `ScriptEditor`, `PatchCompiler` | editing an episode script by item id, and the compiler from public patch operations to batch commands with its blame map |
| `ItemIds` | what the ids of items look like, and what can be read off them |
| `EditLaws` | what every edit operation does to a script, said by what can be read afterwards |
| `DerivedMarkers`, `PatchExactness`, `PatchOutcome` | the markers the batch editor derives from an item's fields, what a replay makes of them, and when it equals the preview to the letter |
| `ParamSubstitution`, `RebindingCheck`, `ParametrizedRuns` | the duplicate-test analyser's row-by-row expansion of parametrized tests with its walk for rebindings, over a small language with scopes, closures and exceptions |
| `Inheritance` | its worklist closures over inheritance and the opt-out recursion on cyclic hierarchies |
| `DraftProtocol`, `ReferencePlan` | optimistic concurrency between a script-plan draft and the formal plan; the flat draft shape and its way back |
| `VerbatimCoverage` | whitespace folding and the greedy coverage scan that stands in for a regular expression |
| `MemoryIndex` | line and byte truncation of the memory index over UTF-8 (section 3 of RFC 3629) |
| `SseFanout` | bounded subscriber queues with two overflow policies |
| `PlanningChain` | the two-slot chain of planning windows with a stop request |
| `ArtifactManifest`, `Activation`, `ArchiveImport` | manifest claims of a script replacement, activation with rollback and schema-last order, import of archived claims |
| `FormalWrite` | the multi-file transaction that restores every listed entry |
| `ApiKeyCache` | the least-recently-used verification cache |

Code that changes state in the source is a class or a loop here; its methods are proved against
specification functions or state predicates, and the properties of those are lemmas. Protocols with
several actors (`DraftProtocol`, `Activation`) also have a `Run` predicate over traces of single steps,
and their main results hold for every trace. Digests are taken to be injective, a file lock makes what
it protects one step, and Unicode text is taken to be NFC-normalised already.

## Results a reader may not expect

- Replaying the projected commands always gives the preview's items up to two derived markers
  (`pending_authoring`, `needs_replan`), which the batch editor sets again and the preview does not. Every
  marker ends as the last operation that decides it decided it (`PatchOutcome.ReplayFollowsDecisions`), so
  the final items are the preview's to the letter exactly when every item of the preview carries its
  markers as they were last decided, which can be read off the preview and the operations alone
  (`PatchOutcome.FinalReplayIsExactIff`). Inserting a segment without prompts is an input where they are
  not (`PatchExactness.InsertWithoutPromptsDiffers`).
- That every prefix of the operations is replayed to the letter is the stronger property: it holds exactly
  when every item an operation writes carries the markers its own fields ask for
  (`PatchExactness.ReplayIsExactIff`). Inserting a segment and then filling in its prompts, or removing it
  again, ends exact without it (`PatchOutcome.InsertThenFill`, `PatchOutcome.InsertThenRemove`).
- The coverage scan is the regular expression, for every source, exactly when no part after the first
  starts with a space (`VerbatimCoverage.ScanIsRegexExactlyWhenSpacesAreSafe`);
  `VerbatimCoverage.LeadingSpaceDefeatsScan` is an input outside that condition.
- With a newline among the first 25000 bytes, the memory index keeps the longest run of whole lines that
  fits exactly when the byte at the limit is no newline (`MemoryIndex.KeptIsLongestIff`);
  `MemoryIndex.LineThatFitsIsGivenUp` is a text where a line that fits is given up.
- A cached positive answer is still served at the very instant its key expires, when the database would
  already refuse it (`ApiKeyCache.HitAgreesWithUnchangedRow`, `ApiKeyCache.ServedAtExpiry`). Refilling a key
  that is present in a full cache evicts another one needlessly (`ApiKeyCache.FullCacheShrinks`), and it
  leaves the key at its old place unless that key is the oldest of a full cache, so that the key used last
  can be the next one evicted (`ApiKeyCache.RefillKeepsOrderIff`, `ApiKeyCache.RefilledKeyIsEvicted`).
- A rollback brings back what was there before the replacement exactly when that is what had been read: a
  manifest written between an activation's reading and its replacing is lost
  (`Activation.RollbackLosesExactlyUnreadWrites`, `Activation.WriteBeforeReplaceIsLost`). A refused
  activation leaves the claims as read exactly when the step that failed was not the writing of the new
  schema version; that failure leaves the new manifest in place (`Activation.RefusedActivationRestoresIff`,
  `Activation.FailedSchemaWriteKeepsPlan`).
- A claim registered between preparing and committing a script replacement, for an item that is gone but
  was not named as removed, survives the commit (`ArtifactManifest.LeftoverClaims`,
  `ArtifactManifest.LeftoverVideo`).
- Opening and promoting an untouched reference plan gives back the same plan exactly when the plan is
  canonical (`ReferencePlan.PromotionRestoresExactlyCanonicalPlans`).

## Model

| member | source | states |
|---|---|---|
| `ScriptEditor.NewItemNumberIsLeast` | lib/script/script_editor.py:173-193 | a new item's number is the least one above the largest of its episode whose id is not taken, and that largest number is reached |
| `ScriptEditor.SuffixIsLeast` | lib/script/script_editor.py:79-94 | a further part of a split gets the stem of its id with the least free suffix from 1 on |
| `ItemIds.ParsedIdHasShape` | lib/script/script_editor.py:156-170 | an id that parses is E, digits, S or U, digits and possibly an underscore with digits, and its numbers are read off it |
| `ItemIds.ShapeIsParsed` | lib/script/script_editor.py:156-170 | every id of that shape parses to its numbers |
| `ItemIds.GivenIdsParse` | lib/script/script_editor.py:79-94 | the ids that are given out, with or without a suffix, parse back to their episode and number |
| `ItemIds.EpisodeOfIds` | lib/script/script_editor.py:160-167 | without a recorded episode the first id that parses decides, and 1 if none does |
| `PatchCompiler.ApplyKeepsWellFormed` | lib/script/script_editor.py:150-262 | every edit keeps ids present and unique |
| `EditLaws.UpdateLaw` | lib/script/script_editor.py:96-155 | an accepted update leaves every other item alone; in its item each named path, nested ones included, reads as the last value given for it, and every path that no named one leads into or out of reads as before |
| `EditLaws.RejectedFieldCannotBeSet` | lib/script/script_editor.py:96-147 | a rejected update names the first field that cannot be set after the fields before it: not settable, or a parent that is no object |
| `EditLaws.AcceptedFieldCanBeSet` | lib/script/script_editor.py:129-147 | in an accepted update every field could be set in its turn |
| `EditLaws.SetPathPossibleIff` | lib/script/script_editor.py:129-147 | a nested field can be set exactly when its parents are objects; the leaf may be missing |
| `EditLaws.UpdateKeepsProtected` | lib/script/script_editor.py:96-128 | ids, media and derived markers are out of reach of an update |
| `EditLaws.UpdateClearsNoPrompt` | lib/script/script_editor.py:112-120 | no update clears a prompt to null |
| `EditLaws.InsertLaw` | lib/script/script_editor.py:196-212 | accepted exactly when the anchor is there; the given item is behind it with a new id and without media, every other field as given |
| `EditLaws.MoveLaw` | lib/script/script_editor.py:224-233 | accepted exactly when item and anchor are there and differ; the item is unchanged behind its anchor, the others keep their order |
| `EditLaws.RemoveLaw` | lib/script/script_editor.py:215-221 | accepted exactly when the item is there; the others keep their order |
| `EditLaws.SplitLaw` | lib/script/script_editor.py:236-285 | accepted exactly for a present item and two parts or more; the first part continues it with id and media, the further parts are new, every other field as given |
| `EditLaws.UpdateCommandLaw` | lib/script/script_batch_edit.py:688-721 | an update command is accepted exactly when the update is, and does the same but for the markers |
| `EditLaws.InsertCommandLaw` | lib/script/script_batch_edit.py:723-762 | an insert command needs an id of its own and its anchor; the item gets the media of the item with its id that the batch removed, unless it is new, and keeps what else was given |
| `EditLaws.MoveCommandLaw` | lib/script/script_batch_edit.py:764-784 | a move command does what a move does, and says what is missing otherwise |
| `EditLaws.RemoveCommandLaw` | lib/script/script_batch_edit.py:786-793 | a remove command takes the item out and remembers it |
| `PatchCompiler.ReplayRebuildsPreview` | server/tool_runtime.py:2196-2316 | for every well-formed script and operation list the preview accepts, the batch editor's operation loop takes all the projected commands and gives the preview's items, ids unique, up to the derived markers |
| `PatchCompiler.SplitReplays` | server/tool_runtime.py:2282-2316 | the removal and the insertions compiled from a split rebuild the split, anchor media included |
| `DerivedMarkers.InsertKeepsIff` | lib/script/script_batch_edit.py:745-760 | the editor inserts an item unchanged exactly when its own fields justify the markers it carries: pending iff its visual layer is incomplete, and for a video unit replanning iff it is unplanned |
| `DerivedMarkers.UpdateKeepsIff` | lib/script/script_batch_edit.py:706-720 | an update leaves the markers alone exactly when it names no visual field that completes a pending layer, and the replanning rule of the item's kind has nothing to do |
| `DerivedMarkers.NamedFieldsDecide` | lib/script/script_batch_edit.py:706-709 | two updates that change nothing differ in the marker, by the fields they name |
| `DerivedMarkers.VisualCompleteIff` | lib/script/prompt_authoring_scope.py:17-32 | the visual layer is the text of a video unit and both prompts of any other item, each written |
| `DerivedMarkers.FilledIff` | lib/script/prompt_authoring_scope.py:25-27 | a visual field is written when it is text with a character that is no whitespace, or another value that is not empty, zero, false or null |
| `DerivedMarkers.PlannedIff` | lib/speech/speech_composition/__init__.py:560-582 | a video unit needs no replanning exactly when it has text, a positive duration and admitted speech |
| `PatchExactness.OperationIsExactIff` | server/tool_runtime.py:2196-2316 | the commands of one operation reproduce it to the letter exactly when its guard, read off the items it writes, holds |
| `PatchExactness.UpdateIsExactIff` | lib/script/script_batch_edit.py:682-721 | the same for an update |
| `PatchExactness.InsertIsExactIff` | lib/script/script_batch_edit.py:723-762 | the same for an insertion, whatever was removed before |
| `PatchExactness.SplitIsExactIff` | server/tool_runtime.py:2282-2316 | the same for a split: every part carries the markers its fields ask for |
| `PatchExactness.ReplayIsExactIff` | server/tool_runtime.py:2196-2316 | for every accepted operation list: every prefix is replayed to the letter exactly when the guard holds at every operation; this is stronger than exactness of the final items |
| `PatchOutcome.ReplayFollowsDecisions` | lib/script/script_batch_edit.py:682-762 | for every accepted operation list the final candidate is the preview with each marker of each item as the last operation that decides it decided it, and as it was when none did |
| `PatchOutcome.FinalReplayIsExactIff` | server/tool_runtime.py:2196-2316 | for every accepted operation list the final items are the preview's to the letter exactly when every item of the preview carries its markers as they were last decided |
| `PatchOutcome.OperationFollows` | lib/script/script_batch_edit.py:682-762 | one operation from any candidate that differs from the preview by decided markers: creations decide the pending marker and for video units the replanning one, updates decide by the fields they name, by completion and by repaired speech, moves and removals decide nothing |
| `PatchOutcome.InsertThenFill` | lib/script/script_batch_edit.py:706-760 | inserting a segment without prompts and then filling them in: the final items are the preview's, those after the insertion are not |
| `PatchOutcome.InsertThenRemove` | lib/script/script_batch_edit.py:723-762 | the same when the segment is removed again |
| `PatchExactness.InsertWithoutPromptsDiffers` | lib/script/script_batch_edit.py:745-749 | inserting a segment without prompts: the preview's item is unmarked, the replayed one pending |
| `PatchCompiler.SourcesAreBlocks` | server/tool_runtime.py:2196-2316 | the index map is made of consecutive blocks in operation order, one command per operation and one per part plus the anchor for a split |
| `PatchCompiler.BlockIsCompiled` | server/tool_runtime.py:2196-2316 | block i is what operation i compiles to between the previews before and after it |
| `PatchCompiler.ProjectPatchOperations` | server/tool_runtime.py:2196-2316 | the in-place projection builds exactly these blocks and this map; it fails exactly when the preview does, naming the first rejected operation, its location and its unit |
| `PatchCompiler.RejectionIsFinal` | server/tool_runtime.py:2196-2316 | an operation rejected after its predecessors makes the whole list rejected |
| `PatchCompiler.RemapOperationIndexes` | server/tool_runtime.py:2319-2337 | every problem keeps its place, and its operation index and operation locations are the public ones |
| `PatchCompiler.RemappedProblemNamesItsOperation` | server/tool_runtime.py:2319-2337 | a problem at command k is remapped to the operation whose compilation contains command k |
| `ParametrizedRuns.ExpandedBodies` | scripts/audit_tests.py:1706-1725 | gives up exactly when some node of the walk rebinds a parameter; otherwise every row's body is recorded with the first row that gives it |
| `RebindingCheck.CheckIsExact` | scripts/audit_tests.py:1684-1721 | some node of the walk rebinds a parameter exactly when the body binds one: a written or deleted name, a parameter, a function or exception name, a scope declaration; reading is no binding |
| `RebindingCheck.LocalsAreOwnBindings` | scripts/audit_tests.py:1684-1703 | the local names of a function are those its own nodes bind, nested functions and comprehension targets excluded, unless it declares them otherwise |
| `RebindingCheck.SubstKeepsRebound` | scripts/audit_tests.py:1664-1675 | putting literals in the place of names that are read changes nothing for the check |
| `ParamSubstitution.AssignedAllIsRebound` | scripts/audit_tests.py:1684-1703 | whatever a body makes local is found by the rebinding check |
| `ParamSubstitution.LiteralIsClosed` | scripts/audit_tests.py:1628-1634 | a literal evaluates to its value in every scope and touches nothing |
| `ParamSubstitution.WrittenIsLiteral` | scripts/audit_tests.py:1628-1634 | every value of atoms and tuples, negative numbers included, is written by a literal that stands for it |
| `ParamSubstitution.Setting.ExecAllCommutes` | scripts/audit_tests.py:1664-1675 | running a substituted body in the store without the parameters is the image of running the original, for nested functions, lambdas, comprehensions, loops, exceptions and deletions |
| `ParametrizedRuns.ExpansionPreservesMeaning` | scripts/audit_tests.py:1706-1725 | with the parameters bound to a row, the body runs like the substituted body, for every amount of fuel and every surrounding store |
| `ParametrizedRuns.ExpandedRunIsRowRun` | scripts/audit_tests.py:1706-1725 | for a real call, a fresh frame over any store whose references are in range: the expanded test runs like the test called with the row |
| `ParametrizedRuns.SameExpansionSameVerdict` | scripts/audit_tests.py:1706-1725 | two rows that expand to one body pass, fail or diverge together wherever they are called, with the same first-order exception |
| `Inheritance.Inherited` | scripts/audit_tests.py:452-464 | terminates with exactly the classes reachable from the seeds along visible bases |
| `Inheritance.InheritsIffWritten` | scripts/audit_tests.py:437-449 | a class inherits from exactly the names written as its bases, plain or generic; dotted bases do not count |
| `Inheritance.ResolveUnittestCases` | scripts/audit_tests.py:362-392 | terminates with exactly the classes derived from an imported or dotted test-case base |
| `Inheritance.FlagFoundIffReachable` | scripts/audit_tests.py:467-493 | on any hierarchy, cyclic ones included, a flag is found exactly when a class with an explicit flag can be reached through classes without one |
| `Inheritance.FlagIsFound` | scripts/audit_tests.py:480-491 | the flag found is the explicit flag of a class on such a way |
| `Inheritance.FlagIsFirstInDepthFirstOrder` | scripts/audit_tests.py:480-491 | on acyclic hierarchies it is the first explicit flag of a depth-first walk |
| `Inheritance.OptedOutHasReason` | scripts/audit_tests.py:467-493 | on any hierarchy an opted-out class reaches an explicit opt-out through classes without a flag |
| `Inheritance.OptedOutIffFirstFlag` | scripts/audit_tests.py:467-493 | on an acyclic hierarchy a class is opted out exactly when the first flag of its depth-first walk is an opt-out |
| `Inheritance.ExplicitFlag` | scripts/audit_tests.py:476-503 | the own flag of a class: what is assigned after the class bodies, else an opt-out when one class of the name opts out |
| `DraftProtocol.PromotedDraftStays` | server/draft_workflow.py:1352-1430 | between checking its draft and committing it, a promotion's draft stays as it was read |
| `DraftProtocol.DraftMovesByName` | server/draft_workflow.py:1270-1481 | in every run a readable draft changes or disappears only by a patch or discard that named its revision, by the promotion that was begun with its revision and holds it, or by a generation that had read it |
| `DraftProtocol.AdoptedNamedItsDraft` | server/draft_workflow.py:1352-1384 | an adopted promotion commits the draft its caller named, unchanged since then |
| `DraftProtocol.StartedNamesItsDraft` | server/draft_workflow.py:1352-1384 | a promotion starts exactly when it names the revision of the draft that is there and the plan of an agent's copy is not confirmed |
| `DraftProtocol.PatchNamesItsDraft` | server/draft_workflow.py:1270-1321 | when a patch is taken, and that content, source and base are then the given ones, everything else as it was |
| `DraftProtocol.DiscardNamesItsDraft` | server/draft_workflow.py:1461-1481 | a readable draft goes exactly by its revision |
| `DraftProtocol.ConfirmedPlanIsNotEdited` | server/draft_workflow.py:1241-1384 | under a confirmed plan no copy is opened, changed or promoted by its agent, and no Web save goes through |
| `DraftProtocol.OpeningAnswers` | server/draft_workflow.py:1241-1268 | when opening answers with a draft, which one, and that refusals change nothing |
| `DraftProtocol.PromotionReports` | server/draft_workflow.py:699-762 | the validator's content and problems are kept with the draft, and the draft lock is free |
| `DraftProtocol.WebSaveAnswers` | server/services/project/script_review.py:417-474 | exactly when a Web save goes through, and what it writes |
| `DraftProtocol.GenerationIsRecorded` | server/text_generation.py:228-346 | what is recorded at the start of a generation, forgotten at its end, and noted in the draft it leaves |
| `DraftProtocol.BaselineWasRead` | server/text_generation.py:228-239 | what a running generation compares with is what it read when it started |
| `DraftProtocol.DraftIsTraceable` | server/draft_workflow.py:346-373 | every draft's base is a formal version it was opened from, its generation had read, or was accepted for it, with the draft present ever since, or the draft was there from the start |
| `DraftProtocol.EveryDraftCarriesABase` | server/draft_workflow.py:362-373 | unless one without a base was there from the start, every draft of every run carries one |
| `DraftProtocol.NoLostUpdate` | server/draft_workflow.py:409-499 | in every interleaving, a promotion replaces only a version its draft is traceable to, a generation only the version it read with the draft it read, a Web save with a base only that base and never under an agent's copy or a confirmed plan |
| `DraftProtocol.PromotionIsAllOrNothing` | server/draft_workflow.py:1352-1430 | adopted exactly when the validator accepts and the formal plan is the draft's base; otherwise the formal plan is untouched and the draft is there with its base, source and owner |
| `DraftProtocol.GenerationRace` | server/text_generation.py:242-346 | an ending generation replaces neither a draft nor a formal plan that changed since its baselines; after a formal conflict its output stays as a draft on the old base |
| `DraftProtocol.KeptOutputAwaitsAcceptance` | server/text_generation.py:250-272 | until a formal version is accepted for it, kept output is promoted only if the formal plan is again what the generation had read |
| `DraftProtocol.AcceptanceResolvesConflict` | server/draft_workflow.py:502-538 | accepting the current formal version, also its absence, and promoting the merged content succeeds when nobody writes in between |
| `DraftProtocol.UntouchedPromotion` | server/draft_workflow.py:346-373 | open, then promote: the validator sees the opened content, and what it accepts becomes the formal plan |
| `DraftProtocol.DraftWorkflow.Open` | server/draft_workflow.py:1241-1268 | an existing draft is returned, a corrupt one reported; a confirmed plan, an unreadable source or a missing plan refuses; else the draft shape is stored with the formal fingerprint as base |
| `DraftProtocol.DraftWorkflow.Patch` | server/draft_workflow.py:1270-1321 | needs the current revision; a new base needs the current formal version; else nothing changes |
| `DraftProtocol.DraftWorkflow.PromoteBegin` | server/draft_workflow.py:1352-1384 | takes the draft lock when revision and confirmation allow it |
| `DraftProtocol.DraftWorkflow.PromoteEnd` | server/draft_workflow.py:699-762 | a report rewrites the draft under its old base, an acceptance compares and swaps the formal plan and clears the draft, a conflict changes nothing |
| `DraftProtocol.DraftWorkflow.WriteFormal` | lib/script/script_review.py:266-284 | the one write: done exactly when the base matches or there is none |
| `DraftProtocol.DraftWorkflow.Discard` | server/draft_workflow.py:1461-1481 | a readable draft needs its revision, a corrupt one goes without |
| `DraftProtocol.DraftWorkflow.GenerationStart` | server/text_generation.py:235-239 | both baselines are recorded |
| `DraftProtocol.DraftWorkflow.GenerationEnd` | server/text_generation.py:952-994 | refuses a changed draft, keeps invalid or conflicting output as a draft on the old base, else swaps and clears |
| `DraftProtocol.DraftWorkflow.WebSave` | server/services/project/script_review.py:417-474 | refused under an agent's copy, a confirmed plan or another formal version |
| `DraftProtocol.DraftWorkflow.Save` | server/draft_workflow.py:1432-1459 | an agent's copy and a stale revision change nothing; otherwise the text is adopted, or kept in the draft with its base |
| `ReferencePlan.FlattenUnits` | server/draft_workflow.py:563-589 | one flat unit per stored unit, in place; a malformed unit keeps its position and what it has |
| `ReferencePlan.FlattenedReads` | server/draft_workflow.py:563-589 | what a flat unit has of a stored one: text if it is a string, source and duration as they are, with defaults for what is missing |
| `ReferencePlan.CoercedIff` | server/draft_workflow.py:253-280 | a duration counts as a number exactly when it is one or a digit string, blanks around it aside |
| `ReferencePlan.ParsedAssetIff` | lib/script/script_models.py:326-351 | what a new asset has to look like, field by field, and what it is completed with |
| `ReferencePlan.JudgeIff` | server/draft_workflow.py:253-316 | accepted exactly when the content fits the schema and no validator objects; the problems are the validators' |
| `ReferencePlan.UnitIdParses` | server/text_generation.py:1186-1212 | the id of a unit says its episode and its place |
| `ReferencePlan.BuildUnits` | server/text_generation.py:1186-1212 | numbers the units in order, or fails when a text fails its check |
| `ReferencePlan.DedupeNewAssets` | lib/script/plan_new_assets.py:477-488 | keeps the first asset of every type and trimmed name |
| `ReferencePlan.SameMarkerIff` | lib/script/plan_new_assets.py:477-488 | two named assets count as one exactly when type and trimmed name agree |
| `ReferencePlan.DedupedIsDistinct` | lib/script/plan_new_assets.py:477-488 | every type and name keeps exactly one asset, and a list without doubles is unchanged |
| `ReferencePlan.FirstsAreKept` | lib/script/plan_new_assets.py:477-488 | an asset is kept exactly when it is the first of its type and name |
| `ReferencePlan.KeptInOrder` | lib/script/plan_new_assets.py:477-488 | the kept assets stay in order |
| `ReferencePlan.NormalContentIsStable` | server/draft_workflow.py:207-316 | revalidating what revalidation wrote back changes nothing |
| `ReferencePlan.FlattenUndoesBuild` | server/draft_workflow.py:563-602 | building a plan and flattening it gives back the flat draft, new assets included |
| `ReferencePlan.CanonicalIsRebuilt` | server/text_generation.py:1186-1212 | flattening a canonical plan and building again gives back the plan |
| `ReferencePlan.PromotionRestoresExactlyCanonicalPlans` | server/draft_workflow.py:462-482 | an accepted promotion of the untouched draft stores the same plan if and only if the plan is canonical |
| `ReferencePlan.NoUnitIsLost` | server/draft_workflow.py:563-589 | whatever the plan looks like, an accepted promotion of its untouched draft keeps every unit in place with text, source and duration |
| `ReferencePlan.OpenThenPromote` | server/draft_workflow.py:1241-1430 | the same inside the draft protocol: adopted exactly when accepted, formal plan unchanged exactly when canonical |
| `VerbatimCoverage.CoversSourceVerbatim` | server/text_generation.py:1439-1456 | acceptance is a match of the regular expression, and if no part after the first starts with a space also the other way round |
| `VerbatimCoverage.ScanIsRegex` | server/text_generation.py:1439-1456 | the scan against some choice of empty or one-space separators, empty parts included, when no part after the first starts with a space |
| `VerbatimCoverage.ScanIsRegexExactlyWhenSpacesAreSafe` | server/text_generation.py:1439-1456 | the two agree on every source if and only if no part after the first starts with a space |
| `VerbatimCoverage.LeadingSpaceDefeatsScan` | server/text_generation.py:1439-1456 | a concrete input with a leading space that the regular expression accepts and the scan does not |
| `VerbatimCoverage.AcceptedTextAgrees` | server/text_generation.py:1439-1456 | acceptance means that parts and source agree once spaces are removed |
| `VerbatimCoverage.NormalizeIsOnePass` | server/text_generation.py:1418-1426 | folding is a one-pass transducer, which is what makes it compositional over cuts |
| `VerbatimCoverage.EveryCutIsCovered` | server/text_generation.py:1418-1456 | any cut of any text into slices, inside blank runs and with all-blank slices too, passes the check |
| `MemoryIndex.ByteCut` | lib/agent/agent_memory_index.py:67-73 | a cut at a newline loses no code point; a cut without one loses only the code point at the limit |
| `MemoryIndex.CutPoint` | lib/agent/agent_memory_index.py:67-73 | every byte position lies at, or strictly inside, exactly one code point |
| `MemoryIndex.DecodedIsEncoded` | lib/agent/agent_memory_index.py:67-73 | whatever decoding accepts is the encoding of the code point it gives |
| `MemoryIndex.BlankIndexIsEmpty` | lib/agent/agent_memory_index.py:46-61 | blank text counts as nothing and loads as nothing |
| `MemoryIndex.KeptWithinLimits` | lib/agent/agent_memory_index.py:41-73 | the kept text is a code-point prefix within 200 lines and 25000 bytes, whole exactly when not over the limit |
| `MemoryIndex.KeptIsLongestIff` | lib/agent/agent_memory_index.py:67-73 | with a newline below the limit, the longest run of whole lines that fits is kept exactly when the byte at the limit is no newline |
| `MemoryIndex.LineThatFitsIsGivenUp` | lib/agent/agent_memory_index.py:70-72 | a text of which a run of whole lines of exactly 25000 bytes is cut shorter |
| `MemoryIndex.OverLimitMeansTruncated` | lib/agent/agent_memory_index.py:41-81 | what the statistics report is what loading does |
| `SseFanout.DeliveryIsFaithful` | server/sse_channel.py:68-127 | consumed then queued items stay an in-order subsequence of the broadcasts with every critical one exactly once, or all of them under the drop policy |
| `SseFanout.DeliveryTakes` | server/sse_channel.py:68-106 | a queue with room takes every item; a full one that stays gives up one item that is not critical: the arriving one, or else the oldest queued one |
| `SseFanout.MissingAsManyAsFullMeets` | server/sse_channel.py:68-127 | of all broadcasts exactly as many are missing as met a full queue |
| `SseFanout.NeverFullMeansAllGiven` | server/sse_channel.py:68-127 | a subscriber whose queue was never full has been given every broadcast in order |
| `SseFanout.CriticalItemsAreGiven` | server/sse_channel.py:68-127 | every critical item was given as often as it was broadcast, or every item under the drop policy |
| `SseFanout.RefusedExactlyWhenHopeless` | server/sse_channel.py:68-81 | refused exactly when the queue is full and, under eviction, a critical item meets only critical ones |
| `SseFanout.RemovalIsFaithful` | server/sse_channel.py:205-212 | what a removed subscriber consumed is a subsequence, or under the drop policy a prefix, of the broadcasts |
| `SseFanout.EndStream` | server/sse_channel.py:44-53 | leaves the queue holding the end marker only |
| `SseFanout.EvictOneNonCritical` | server/sse_channel.py:89-106 | takes out the oldest non-critical item and keeps the order of the rest |
| `SseFanout.SseChannel.Subscribe` | server/sse_channel.py:167-184 | registers a fresh queue, or none when the first-subscriber hook fails |
| `SseFanout.SseChannel.Broadcast` | server/sse_channel.py:205-212 | delivers to every subscriber, into every queue with room; a full queue gives up one item that is not critical or its subscriber is removed, exactly when that is hopeless; the books of given and lost items balance |
| `SseFanout.SseChannel.Next` | server/sse_channel.py:214-229 | yields items in queue order; a removed subscriber gets nothing but the end |
| `PlanningChain.PlanningQueue.Start` | server/tool_runtime.py:698-736 | conflicts with any other active window, joins an equal one, else enqueues; the chain is kept |
| `PlanningChain.PlanningQueue.QueueNextWindow` | server/tool_runtime.py:2798-2816 | queues the other slot behind the running window unless it was stopped |
| `PlanningChain.PlanningQueue.Stop` | server/tool_runtime.py:3167-3191 | cancels the queued window, reports and marks the running one; nothing else stays active |
| `PlanningChain.QueueNextKeepsChain` | server/tool_runtime.py:2798-2816 | one running and at most one queued window, in different slots, the queued one waiting for the running one |
| `PlanningChain.StopLeavesOnlyRunning` | server/tool_runtime.py:3167-3191 | after a stop every active window was already running |
| `PlanningChain.EndKeepsChain` | server/tool_runtime.py:2784-2816 | when a window ends, only its successor can stay active, and only after success |
| `PlanningChain.PlanningQueue.Cancel` | lib/db/repositories/task_repo.py:795-824 | an unknown window and a running one are errors, one that has ended is left alone, a queued one is withdrawn; the chain and what a stop reported are kept |
| `PlanningChain.CancelKeepsChain` | lib/db/repositories/task_repo.py:795-824 | without the queued window only the running one is active |
| `PlanningChain.LoneWindowIsClaimable` | server/tool_runtime.py:2784-2816 | a window waiting alone can be claimed: planning does not get stuck on a dead predecessor |
| `ArtifactManifest.ManifestStore.ReplaceEntriesIfMatches` | lib/artifacts/artifact_manifest.py:1268-1303 | all listed claims are set, all others kept, or nothing changes: on a mismatch, or when two claims would own one file |
| `ArtifactManifest.ChecksUnshared` | lib/artifacts/artifact_manifest.py:2151-2161 | decides whether two claims own one file |
| `ArtifactManifest.Prepare` | lib/artifacts/artifact_activation.py:371-429 | freezes the orphaned and grid claims with the expected values of all of them |
| `ArtifactManifest.Commit` | lib/artifacts/artifact_activation.py:431-445 | one compare-and-swap against what was prepared; every failure leaves the manifest as other writers left it |
| `ArtifactManifest.CommitChangesExactlyThese` | lib/artifacts/artifact_activation.py:397-447 | claim by claim: orphaned and uprooted ones go, the script's is set, every other one stays |
| `ArtifactManifest.CommitOverwritesNothingForeign` | lib/artifacts/artifact_activation.py:397-447 | whatever the commit changes is as it was when the replacement was prepared |
| `ArtifactManifest.LeftoverClaims` | lib/artifacts/artifact_activation.py:397-418 | a claim of a vanished item is left over exactly when it is newer than the snapshot and its item was not named |
| `ArtifactManifest.LeftoverVideo` | lib/artifacts/artifact_activation.py:397-418 | a concrete video claim that is left over |
| `ArtifactManifest.OtherEpisodesStay` | lib/artifacts/artifact_activation.py:397-447 | no claim of another episode or of the project changes |
| `Activation.SchemaComesLast` | lib/artifacts/artifact_activation.py:125-155 | in every run the schema version is written only after the plan replaced the manifest and a later check found all inputs as planned |
| `Activation.OwnManifestWrites` | lib/artifacts/artifact_activation.py:125-149 | the only other own write of the manifest takes exactly the plan out and restores what was read; foreign content is never overwritten by it |
| `Activation.RefusedActivationRestoresIff` | lib/artifacts/artifact_activation.py:125-155 | with no other manifest writer since the reading, a refused activation leaves the claims as read exactly when the failed step was not the writing of the schema version (or nothing had to change) |
| `Activation.RollbackLosesExactlyUnreadWrites` | lib/artifacts/artifact_activation.py:129-149 | a rollback restores what was there before the replacement exactly when that is what had been read; otherwise a write in between is lost |
| `Activation.UnreadIsUnwritten` | lib/artifacts/artifact_activation.py:125-131 | an activation refused before it read the manifest never wrote it |
| `Activation.ManifestByStage` | lib/artifacts/artifact_activation.py:125-155 | what the manifest holds at every stage when nobody else writes it after the reading; after a refusal the plan if writing the schema version failed, else what was read |
| `Activation.IncompleteHasACause` | lib/artifacts/artifact_activation.py:132-149 | an incomplete rollback is reported only after a failed rollback step or a foreign write |
| `Activation.RollbackReportIsExact` | lib/artifacts/artifact_activation.py:132-149 | whoever else writes, a rollback ends in a plain refusal only with the claims that were read, and as incomplete exactly when its step fails or other claims are found |
| `Activation.RollbackUndoesOwnChange` | lib/artifacts/artifact_activation.py:130-139 | only an activation whose replacement changed the manifest rolls back |
| `Activation.AfterAFailedCheck` | lib/artifacts/artifact_activation.py:132-149 | a failing check after the replacement rolls a change back and is a plain refusal otherwise; only a rollback is reported as incomplete |
| `Activation.ReadAfterTwoChecks` | lib/artifacts/artifact_activation.py:110-129 | the manifest is touched only after the preflight and a second check under the lock found everything as planned |
| `Activation.UndisturbedActivationSucceeds` | lib/artifacts/artifact_activation.py:96-155 | with nothing in its way an activation installs the plan and then the next schema version |
| `Activation.WriteBeforeReplaceIsLost` | lib/artifacts/artifact_activation.py:129-131 | a run in which a foreign write between reading and replacing is lost |
| `Activation.FailedSchemaWriteKeepsPlan` | lib/artifacts/artifact_activation.py:125-155 | a run with no other writer in which writing the schema version fails: it is refused, project.json is as it was, the plan's claims stay |
| `Activation.AfterIsARun` | lib/artifacts/artifact_activation.py:125-155 | activation in any environment is one of these runs |
| `Activation.ProjectFiles.Activate` | lib/artifacts/artifact_activation.py:96-155 | the activation as written, with arbitrary interference and failures between its steps, takes exactly these steps |
| `ArchiveImport.TextModeDigest.Update` | lib/infra/content_digest.py:58-88 | keeps the digest of everything fed so far, across chunk borders between CR and LF |
| `ArchiveImport.DigestChunks` | lib/infra/content_digest.py:58-94 | however a file is cut into chunks, the digest is that of the whole file in text mode |
| `ArchiveImport.UnchangedByTextMode` | lib/infra/content_digest.py:58-94 | text mode leaves a file alone exactly when it has no CRLF and no 0x1A |
| `ArchiveImport.Import` | lib/artifacts/artifact_activation.py:158-216 | accepts exactly provable archives with matching evidence, as one manifest; else nothing changes |
| `ArchiveImport.ImportableIff` | lib/artifacts/artifact_activation.py:185-213 | an archive can be imported exactly when every claim has its digest, its canonical path and a file that is what the digest stands for, as bytes or in text mode |
| `ArchiveImport.ImportedClaimsAreBound` | lib/artifacts/artifact_activation.py:194-213 | every restored claim is the archived one bound to the bytes on disk, or one the project proves itself |
| `ArchiveImport.ImportUndoesExport` | lib/artifacts/artifact_activation.py:219-234 | importing an export into the same files restores exactly the exported claims |
| `ArchiveImport.TextModeExportKeeps` | lib/artifacts/artifact_activation.py:237-253 | with text-mode digests a frozen claim survives exactly where text mode reads the file unchanged |
| `FormalWrite.FileSystem.Transaction` | lib/artifacts/formal_write.py:80-110 | after a failing body every listed entry is as snapshotted unless its own restore step raises; incompleteness is reported exactly when one raised |
| `FormalWrite.FileSystem.RestoreSnapshots` | lib/artifacts/formal_write.py:40-61 | every step is attempted and none disturbs another entry |
| `FormalWrite.FileSystem.SnapshotAll` | lib/artifacts/formal_write.py:89-100 | one record for each distinct listed entry and no other |
| `FormalWrite.StepRaises` | lib/artifacts/formal_write.py:40-61 | a restore step that does not raise leaves the recorded entry |
| `ApiKeyCache.GetKeepsSound` | server/auth.py:317-327 | a hit repeats a database verdict at most 300 seconds old, never past the key's expiry, and counts as the latest use |
| `ApiKeyCache.GetHitsIff` | server/auth.py:317-327 | a lookup hits exactly when an entry for the key, positive or negative, has not run out, and says what it says |
| `ApiKeyCache.PutKeepsSound` | server/auth.py:330-347 | storing evicts at most the least recently used entry and keeps the bound of 512 |
| `ApiKeyCache.StoredIsJustified` | server/auth.py:340-347 | what is stored for a database answer lives at most as long as that answer allows |
| `ApiKeyCache.StoredLifetime` | server/auth.py:336-347 | an answer is kept for 300 seconds, or for what is left of the key's own life |
| `ApiKeyCache.HitAgreesWithUnchangedRow` | server/auth.py:317-327 | with an unchanged row a hit is the present verdict, except exactly at the expiry instant |
| `ApiKeyCache.ServedAtExpiry` | server/auth.py:317-327 | a lookup, a cached answer and a hit at the expiry instant that the database would refuse |
| `ApiKeyCache.RefillOfPresentKeyShrinksCache` | server/auth.py:336-347 | in a full cache a refill shrinks the cache exactly when the key is present and not the oldest |
| `ApiKeyCache.FullCacheShrinks` | server/auth.py:336-347 | such a cache, filled by 512 lookups |
| `ApiKeyCache.RefillKeepsOrderIff` | server/auth.py:347 | a refill keeps the place of a present key, unless it is the oldest of a full cache: the entries stay in order of use exactly when the key was the last, or that oldest one |
| `ApiKeyCache.RefilledKeyIsEvicted` | server/auth.py:336-347 | a key just refilled at the front is the next one evicted |
| `ApiKeyCache.ApiKeyCache.Verify` | server/auth.py:350-410 | every answer is a logged database verdict within its lifetime, and the cache invariant is kept |

## Left out

- PatchCompiler.ReplayRebuildsPreview: equality is up to the markers `pending_authoring` and `needs_replan`, because the batch editor derives them again and the preview does not; `PatchOutcome.ReplayFollowsDecisions` says what they are and `PatchOutcome.FinalReplayIsExactIff` when they agree too. It covers the editor's operation loop: the checks of speech, structure, source text and references that follow (lib/script/script_batch_edit.py:372-470) can still refuse the candidate.
- PatchCompiler.SplitReplays: equality is up to the same markers; `PatchExactness.SplitIsExactIff` says when they agree too.
- PatchExactness.ReplayIsExactIff: speaks of every prefix; `PatchOutcome.FinalReplayIsExactIff` speaks of the final items.
- ScriptEditor.NewItemNumberIsLeast: digits in ids are ASCII, and an id ends where its string ends.
- DerivedMarkers.UpdateKeepsIff: the speech validator behind `needs_replan` is one arbitrary function of an item without its markers.
- PatchCompiler.RemapOperationIndexes: a problem carries its operation index and locations only; codes, messages and admissions are copied unchanged in the source.
- ParamSubstitution.LiteralIsClosed: literals are atoms, tuples and negated numbers; list, dict, set and bytes literals are left out with mutable values.
- RebindingCheck.CheckIsExact: the walk covers the nodes of the language; class names, import aliases, match captures and global declarations are left out with them.
- ParametrizedRuns.ExpandedRunIsRowRun: in the language of `ParamSubstitution.Setting.ExecAllCommutes`, with its limits.
- ParametrizedRuns.SameExpansionSameVerdict: the same language; exceptions are compared when they are first-order.
- ParametrizedRuns.ExpansionPreservesMeaning: assumes the frame of the call; `ParametrizedRuns.ExpandedRunIsRowRun` is the statement for a call.
- ParamSubstitution.Setting.ExecAllCommutes: the language has no classes, imports, `match`, `with`, `global`, f-strings, type-parameter lists or mutable values. The source does not look for a parameter's name among type parameters, and substitution is not meaning-preserving for list literals that are changed in place. Evaluation is indexed by fuel, and the statement holds for every fuel.
- DraftProtocol.NoLostUpdate: concerns the three script-plan variants; the prompt-authoring draft, which the same workflow can hold, and its clearing when the reference plan changes are not part of this model. Clearing the draft after a reference promotion is one step with the write.
- DraftProtocol.DraftWorkflow.Save: patch and promotion are called back to back; in runs they are separate steps, so interleavings between them are covered there.
- DraftProtocol.DraftWorkflow.WebSave: the speech admission of changed units, which can only refuse a save, is left out.
- DraftProtocol.GenerationRace: the raw bytes of a readable draft file are identified with its content, so a rewrite that only changes layout does not count as a change.
- ReferencePlan.PromotionRestoresExactlyCanonicalPlans: the validators of units and new assets are one arbitrary function; durations are integers, and digit strings are ASCII.
- ArtifactManifest.Commit: the claims are read in one step before the swap; the swap compares all of them again.
- ArtifactManifest.ManifestStore.ReplaceEntriesIfMatches: writing the manifest file is atomic, and its bytes are the canonical form of its entries.
- Activation.SchemaComesLast: covers the schema-advancing activation; backups touch none of the modelled files, and a plan that would give one file to two claims counts as a failing replacement.
- FormalWrite.FileSystem.Transaction: the directory flag of links on Windows and the creation of parent directories are not modelled.
- MemoryIndex.OverLimitMeansTruncated: the wording of the notice is a parameter, and text holds no lone surrogates.
- ApiKeyCache.ApiKeyCache.Verify: one clock reading per call; the background update of the last use of a key and row timestamps that cannot be parsed are left out.
- PlanningChain.PlanningQueue.Stop: listing and marking are one step, as are checking and enqueueing in a submission; a failing task takes one level of dependents along, which is all this chain has.
- SseFanout.SseChannel.Broadcast: the removal callback and the last-subscriber hook have no effect on the channel and are left out; cancellation inside a wait is one step with it.
- Model calls, prompt rendering, HTTP routing, tokens, passwords and the database queue are plumbing around these parts or inputs to them.
- Migrations, decorator censuses, draft repair and the analyser's heuristics would only add easier members.
