# Verification of pi-student's stateful cores

A Dafny model of six parts of pi-student whose promises span whole runs, and of two smaller ones, with proofs of those
promises.

- **Learning evidence** (`Evidence*.dfy`). A session's evidence is a fold over its sorted events. `Evidence` has the
  fold twice: as the functions `Step`, `Run` and `Projection`, and as the class `Projector`, whose methods update the
  maps and the output in place. The other files say what the output means in terms of the events alone.
- **Codebase model** (`ProjectScan`, `SourceFacts`, `ImportTrace`, `CodebaseModel`). The bounded breadth-first scan, the
  facts kept about inspected sources, the import trace, and the class that holds them.
- **Learning workflow** (`Workflow`, `WorkflowController`, `WorkflowRuns`). The rules on values, the controller over a
  heap of session objects, and safety over runs from a new session.
- **Policy** (`Resolution`, `PolicyMeet`, `PolicyOrder`, `Capabilities`, `CapabilityGuard`). The layered merge in place,
  its pointwise specification, limits and reasoning levels, and the guarded session.
- **Completion quota** (`Quota`, `QuotaRuns`). The service's state under the lock, and runs that interleave calls with
  failing writes, crashes and restarts.
- **Flowchart** (`FlowchartParse`, `Layering`, `Layout`, `Labels`, `LabelOverlaps`, `Wrap`, `Drawing`). From decoded
  model output to a well-formed graph, its layers, node rectangles, labels and wrapped text.
- **Publishing** (`PublishingTrace`, `PublishingService`, `PublishingLosses`). The protocol against an environment where
  every call may fail, and what holds of the effects of any sequence of calls.
- **Usage** (`Usage`). Cost estimates and budgets in exact integers.

`Common` and `Sorting` hold the shared functions. Where the source works by steps in place, a method or class does the
same and its contract equates the result with a function on values; the lemmas are about that function.

## Where the code does less than it says

Each of these is kept as the code has it, with an exact statement of when the intended property holds.

- Edge labels are meant not to overlap earlier labels. The check at `packages/paseo-adapter/src/flowchart-ui.ts:327`
  reads `x`, `y`, `w`, `h` from the records `{ box, lines }` pushed at line 331, which have no such properties, so it
  never fires. Every label does find an offset that misses all nodes (`LabelOverlaps.SearchFindsShift`), and two labels
  overlap exactly when their edges have the same middle column or gap and the heights that follow from the rows and the
  label sizes are too close (`LabelOverlaps.OverlapExactly`); a drawing is free of overlaps exactly when no two edges
  are like that (`Drawing.DrawLabels`).
- The key of a reported revision joins source id and file name without a separator, so two pairs can share a key and a
  first revision can go unreported (`EvidenceLosses.RevisionMissingInEvidence`). A change is reported exactly when its
  key is new (`EvidenceRevisions.RevisionReportedExactly`), and two file names can share a key exactly when one is the
  other after one to nine digits (`EvidenceLosses.KeysCollideExactly`).
- The flowchart parser cuts node ids to 80 characters but not the ids in edges, so edges of a longer id are dropped
  (`FlowchartParse.EdgeKeptExactlyWhenNamesAreShort`).
- A budget limit of zero with nothing spent gives 0/0, which makes `Math.max` not a number and switches the other limit
  off (`Usage.BlockedExactly`, `Usage.LedgerSafeExactly`). Stored budgets are checked to be positive
  (`infra/supabase/migrations/20260916225957_organization_governance.sql:76-77`), so only a direct caller of
  `evaluateBudget` can pass a zero.
- A repository can be created and then forgotten: exactly when the first write of the record after its creation fails
  and so does the write of that failure (`PublishingService.Publisher.Publish` on the replies,
  `PublishingTrace.LostExactly` on any sequence of effects). Nothing else leads to a second repository
  (`PublishingTrace.AtMostOneRepository`), and replies of the environment are given on which it happens in call after
  call (`PublishingLosses.LoseRepositories`).
- The record can change to another repository: exactly when GitHub answers the lookup of the recorded one with a
  different owner or name and one of the writes that follow succeeds (`PublishingService.Publisher.RenamesExactly`).
  Replies on which it happens are given (`PublishingLosses.RenameRepository`); while lookups are answered as asked it
  does not (`PublishingTrace.RepositoryStaysSaved`).
- In Reflect the model may still report a failed verification without leaving the stage
  (`WorkflowRuns.PassMayBeRevised`). In Reflect the verification has passed exactly when the last outcome reported since
  Reflect was entered, if any, is a pass (`WorkflowRuns.PassedInReflectExactly`).

## Model

| member | source | states |
|---|---|---|
| Evidence.DeriveLearningEvidence | packages/education/src/learning-evidence.ts:33-121 | the pass with its maps, sets and edited output items computes the functional projection |
| Evidence.Projector.EditFile | packages/education/src/learning-evidence.ts:56-73 | an edit joins its group's item in place, through the saved index, or opens a new one, as the specification does |
| EvidenceGroups.EditItemsAreMaximalRuns | packages/education/src/learning-evidence.ts:47-73 | per category and file, the edit items are one for one and in order the items of the maximal runs of contributing events; items of edit categories and no others belong to a group |
| EvidenceGroups.RunsPartition | packages/education/src/learning-evidence.ts:60-72 | every contributing event falls in exactly one run; inside a run no gap exceeds two minutes and between runs every gap does |
| EvidenceGroups.RunsUnique | packages/education/src/learning-evidence.ts:60-72 | no other partition into maximal runs exists |
| EvidenceGroups.IndexPointsAtOwnItem | packages/education/src/learning-evidence.ts:64-66 | a saved index always points at the item of its own group's last run |
| EvidenceGroups.RegroupedSummaryIsStable | packages/education/src/learning-evidence.ts:67-70 | rebuilding a summary when an edit joins its group gives the summary the group opened with |
| EvidenceGroups.EchoIsExact | packages/education/src/learning-evidence.ts:80-82 | an editor change is suppressed exactly when an accepted completion of the same file precedes it within three seconds |
| EvidenceFixes.FixVerifiedExactly | packages/education/src/learning-evidence.ts:105-110 | a pass yields fix_verified exactly when the latest earlier test failed within the hour and an unsuppressed editor change followed; it names the failure, the first such change and the pass |
| EvidenceFixes.VerifiesIsExact | packages/education/src/learning-evidence.ts:101-110 | the two remembered events are those of the history, and the branch is taken exactly when the history holds a fix |
| EvidenceFixes.FixAttemptedExactly | packages/education/src/learning-evidence.ts:89-92 | fix_attempted is emitted exactly at the first unsuppressed change within an hour of the open failure |
| EvidenceLog.VerifiedInLog | packages/education/src/learning-evidence.ts:74-111 | the fix_verified items of the output of a log are, in order, exactly those of the passes that verify a fix, with failure, first change and pass |
| EvidenceLog.OneVerifiedItemPerFailure | packages/education/src/learning-evidence.ts:105-110 | no failure has two fix_verified items in the output of a log |
| EvidenceFixes.OneVerificationPerFailure | packages/education/src/learning-evidence.ts:107-110 | in any history, at most one pass verifies the fix of a failure |
| EvidenceLog.AttemptedInLog | packages/education/src/learning-evidence.ts:74-92 | the fix_attempted items of the output of a log are, in order, exactly those of the first attempts at its failures |
| EvidenceLog.OneAttemptedItemPerFailure | packages/education/src/learning-evidence.ts:89-92 | no failure has two fix_attempted items in the output of a log |
| EvidenceLog.StepAdds | packages/education/src/learning-evidence.ts:74-117 | only passes add fix_verified items, only student changes add fix_attempted and revision items, and no step changes one of them |
| EvidenceFixes.OneAttemptPerFailure | packages/education/src/learning-evidence.ts:89-103 | in any history, a failure has at most one first attempt |
| EvidenceRevisions.RevisionReportedExactly | packages/education/src/learning-evidence.ts:84-88 | a change is reported as revising agent work exactly when it follows the latest agent edit of its file within an hour and its key is new |
| EvidenceRevisions.RevisionKeyInjective | packages/education/src/learning-evidence.ts:85-87 | two different pairs share a key only if one file name is the other after one to nine digits |
| EvidenceLosses.KeysCollideExactly | packages/education/src/learning-evidence.ts:85-87 | two file names can share a key exactly when one is the other after one to nine digits |
| EvidenceRevisions.FirstRevisionReported | packages/education/src/learning-evidence.ts:84-88 | the first revision of an agent edit in a file is reported, unless the name of a file revised before is that of this file after one to nine digits or the other way round |
| EvidenceRevisions.RevisionLost | packages/education/src/learning-evidence.ts:85-87 | a concrete history in which the change after a new agent edit adds no revision item because two keys coincide |
| EvidenceLosses.RevisionMissingInEvidence | packages/education/src/learning-evidence.ts:33-120 | for that story in any order, among any events the window does not select: the first revision of the second agent edit is in no item of the projection |
| EvidenceStability.RunExtends | packages/education/src/learning-evidence.ts:60-69 | later events leave every earlier item in place and only extend its references |
| EvidenceStability.LaterEventsOnlyExtend | packages/education/src/learning-evidence.ts:36-73 | extending the log with later-sorting events keeps category, actor, timestamp and summary of each earlier item |
| EvidenceStability.RebuildIsStable | packages/education/src/learning-evidence.ts:28-39 | with distinct source ids the evidence depends neither on the input order nor on events the window does not select |
| EvidenceStability.ProjectionIsSortedTail | packages/education/src/learning-evidence.ts:118-120 | the result is sorted by time; every raw item is kept or dropped once, at most 200 are kept, and no dropped item sorts after a kept one |
| ProjectScan.ListDirectory | packages/education/src/project-model.ts:55-67 | one directory's names fill files, directories and queue up to their limits, and the flag is set exactly when something did not fit |
| ProjectScan.Walk | packages/education/src/project-model.ts:47-68 | the loop visits at most 60 directories in breadth-first order and ends with an empty queue, at a limit, or with an error |
| ProjectScan.ScanTree | packages/education/src/project-model.ts:44-81 | unless truncated or in error, files and directories are exactly those of the tree, each once; short of 1200 files, truncated exactly when the tree exceeds a limit; shallow files first |
| ProjectScan.VisitKeepsInv | packages/education/src/project-model.ts:49-68 | a visit keeps: everything found is in the tree and found once, nothing under a visited directory is dropped without the flag, no flag without an exceeded limit |
| ProjectScan.NothingExceeds | packages/education/src/project-model.ts:55-66 | in a tree within the limits no visit sets the flag |
| ProjectScan.CompleteCovers | packages/education/src/project-model.ts:49-69 | with an empty queue and nothing dropped, the files and directories found are all of the tree |
| ProjectScan.VisitKeepsOrder | packages/education/src/project-model.ts:50-65 | the queue spans two levels and files are found by increasing depth |
| SourceFacts.ExtractFacts | packages/education/src/project-model.ts:134-144 | the loop over the lines appends the file's import facts, with line numbers, and its symbols |
| SourceFacts.RetainSources | packages/education/src/project-model.ts:87-94 | a rescan keeps exactly the sources whose fingerprint still matches, with their import facts, in order |
| SourceFacts.InspectSetsFacts | packages/education/src/project-model.ts:136-150 | after an inspection the file's import facts are exactly those of its text, an evicted file has none, and every other file's are unchanged |
| SourceFacts.InspectedIsNeverEvicted | packages/education/src/project-model.ts:145-150 | the inspected file ends up last; the others stay in order, except that beyond 32 the oldest goes |
| SourceFacts.InspectKeepsRemembered | packages/education/src/project-model.ts:131-151 | inspecting keeps: at most 32 sources, one per file, every import fact of a remembered file, fingerprints and facts those of the text last read |
| SourceFacts.RescanCutsFacts | packages/education/src/project-model.ts:92-96 | after a rescan a file has the first of the facts it had if it is unchanged and none otherwise; all of them below 600 relationships |
| SourceFacts.RescanKeepsRemembered | packages/education/src/project-model.ts:86-97 | a rescan keeps the same promises |
| SourceFacts.RescanAgreesWithDisk | packages/education/src/project-model.ts:86-94 | after a rescan fingerprints match the current content; without hash collisions facts are the first of those of the current content |
| ImportTrace.FollowFacts | packages/education/src/project-model.ts:166-173 | resolved unvisited targets are queued in order, and exactly the targets without a listed candidate are unresolved |
| ImportTrace.VisitKeepsTrace | packages/education/src/project-model.ts:161-174 | a visit keeps: visited and queued files are reachable, and what a visited file leads to is visited or queued |
| ImportTrace.TraceCloses | packages/education/src/project-model.ts:161-175 | with an empty queue the visited files are exactly the reachable ones |
| ImportTrace.UnresolvedExactly | packages/education/src/project-model.ts:168-172 | a target is reported unresolved exactly when a visited file imports it and no candidate is listed |
| ImportTrace.FactsOfVisited | packages/education/src/project-model.ts:166-167 | the reported edges are exactly the facts of the visited files |
| CodebaseModel.CollectFacts | packages/education/src/project-model.ts:72-96 | all dependencies of the first 24 manifests, then the retained facts, cut at 600; errors are the manifests that could not be used; the flag is set exactly when something was cut |
| CodebaseModel.ManifestFactsAre | packages/education/src/project-model.ts:74-80 | the facts of manifests are exactly the dependencies named by readable, small and well-formed ones |
| CodebaseModel.ScanAll | packages/education/src/project-model.ts:44-99 | listing, coverage flags and remembered facts of a new scan mean what they say |
| CodebaseModel.Codebase.Invalidate | packages/education/src/project-model.ts:37 | the model is dropped, the file list stays |
| CodebaseModel.Codebase.Scan | packages/education/src/project-model.ts:44-100 | a new model object replaces the old one, with the next generation, and the old object is not written |
| CodebaseModel.Codebase.Get | packages/education/src/project-model.ts:38-43 | a scan younger than a minute is reused untouched unless a refresh is asked for; otherwise there is a new scan |
| CodebaseModel.Codebase.Inspect | packages/education/src/project-model.ts:127-153 | succeeds exactly for readable source files within the size limit; sources and relationships afterwards in every case, with or without a due rescan, and for failures too |
| CodebaseModel.Codebase.Visit | packages/education/src/project-model.ts:162-174 | one step inspects the first queued file, adds exactly its facts and unresolved imports, and keeps the closure |
| CodebaseModel.Codebase.Trace | packages/education/src/project-model.ts:155-176 | at most 8 distinct files, the start first, all reachable, with exactly their facts; unless truncated, all reachable files; it fails only when a reachable file cannot be inspected |
| Workflow.ToolsAgreeExactly | packages/education/src/workflow-controller.ts:70-95 | canUseTool and getAllowedTools agree in every state exactly when the policy lists what it allows |
| Workflow.DefaultToolsAgree | packages/policy/src/tool-policy.ts:10-37 | they agree under the shipped policy, in every mode |
| Workflow.EditingStages | packages/policy/src/tool-policy.ts:10-17 | edit and write are allowed exactly in Implement and Verify outside question practice |
| WorkflowController.Controller.UpdateLearningState | packages/education/src/workflow-controller.ts:117-181 | a rejected update changes no field of any session object and calls no listener; an accepted one commits the specified session and calls every registered listener |
| WorkflowController.EachCalledOnce | packages/education/src/workflow-controller.ts:24-29 | no listener is registered twice, so each is called exactly once, for a change and for an entered stage |
| WorkflowController.Controller.AddStudentPlanStep | packages/education/src/workflow-controller.ts:97-103 | a step is added only in Plan, from non-blank text, to a plan not yet approved; otherwise nothing changes |
| WorkflowController.Controller.ApproveStudentPlan | packages/education/src/workflow-controller.ts:105-111 | a plan is approved only in Plan, with a student's step and an acknowledgement; otherwise nothing changes |
| WorkflowController.Controller.SetLearnMode | packages/education/src/workflow-controller.ts:44-48 | a change of mode is stored and announced once; no change announces nothing |
| WorkflowController.StudentPlan.AddStep | packages/education/src/student-plan.ts:30-43 | appends exactly one pending student step, numbered next, or reports why not |
| WorkflowController.StudentPlan.Approve | packages/education/src/student-plan.ts:49-56 | sets the approval and records the acknowledgement, or reports why not |
| WorkflowController.StageEnteredExactlyWhenChanged | packages/education/src/workflow-controller.ts:162-180 | stage listeners run exactly when the stage changes, along a legal edge |
| WorkflowRuns.EditingNeedsApproval | packages/education/src/workflow-controller.ts:97-127 | in every reachable state where edit or write is usable, the student approved a plan in the latest visit to Plan |
| WorkflowRuns.ImplementingNeedsApprovedPlan | packages/education/src/workflow-controller.ts:196-202 | every step from Plan to Implement has a summary, a student's step, and an approval of the current visit to Plan |
| WorkflowRuns.ReflectingNeedsPass | packages/education/src/workflow-controller.ts:207-260 | every entry to Reflect comes from Verify, with a pass reported and no later failure or Implement-to-Review step |
| WorkflowRuns.RunsAreLegal | packages/education/src/transitions.ts:3-14 | every stage change of a run is a legal transition made by an accepted update |
| WorkflowRuns.PassMayBeRevised | packages/education/src/workflow-controller.ts:155-157 | in Reflect a failure can still be reported without a change of stage |
| WorkflowRuns.PassStaysExactly | packages/education/src/workflow-controller.ts:117-181 | a pass survives a step in Reflect exactly when the step is not an accepted report of a failure |
| WorkflowRuns.PassedInReflectExactly | packages/education/src/workflow-controller.ts:117-181 | in every reachable state in Reflect the verification has passed exactly when the last outcome reported since entry, if any, is a pass |
| Resolution.ResolveEffectivePolicy | packages/policy/src/resolution.ts:44-88 | the nested loops succeed exactly when every path resolves on its own, and write each path's own history and the source versions |
| Resolution.ApplyLayer | packages/policy/src/resolution.ts:54-85 | one layer changes one path exactly as its own history says, or is an error |
| PolicyMeet.FlagTrace | packages/policy/src/resolution.ts:63-67 | a flag is the default AND every proposal |
| PolicyMeet.LimitTrace | packages/policy/src/resolution.ts:68-74 | a limit is the least proposed cap, or null if none is proposed |
| PolicyMeet.ChoicesTrace | packages/policy/src/resolution.ts:75-82 | a list is the ordered intersection of the proposals; it resolves exactly when that is not empty |
| PolicyOrder.MergeRefinesMeet | packages/policy/src/resolution.ts:51-86 | the merge of every path equals its pointwise specification, and succeeds exactly when the specification does |
| PolicyOrder.FewerLayersResolve | packages/policy/src/resolution.ts:51-86 | dropping layers never makes a policy unresolvable |
| PolicyOrder.MoreLayersOnlyRestrict | packages/policy/src/resolution.ts:43-86 | adding layers makes each setting at least as restrictive, reading an empty model list as unrestricted |
| PolicyOrder.LayerOrderIsImmaterial | packages/policy/src/resolution.ts:47-86 | permuting layers changes no setting except the order of models, and not whether the policy resolves |
| PolicyOrder.ProvenanceExplains | packages/policy/src/resolution.ts:49-84 | provenance keeps the default or names a layer that proposed the effective value |
| Capabilities.ResolveThinkingLevel | packages/policy/src/thinking.ts:16-27 | the requested level if supported, else the nearest supported one above, else the nearest below, else off |
| Capabilities.PhaseOnlyAdvances | packages/policy/src/capability-runtime.ts:24-46 | with counters and clock that do not decrease, the phase only moves from agent to tutoring to stopped |
| Capabilities.AgentLimitPersists | packages/policy/src/capability-runtime.ts:25-30 | a reached agent limit stays reached |
| Capabilities.TighterLimitsReachSooner | packages/policy/src/capability-runtime.ts:25-44 | any limit reached under looser limits is reached under tighter ones |
| Capabilities.NarrowerPolicyPermitsLess | packages/policy/src/capability-policy.ts:62-67 | a narrower policy allows no model or level the wider one does not |
| Capabilities.AddingLayersOnlyRestricts | packages/policy/src/resolution.ts:54-85 | end to end: if the longer list of layers resolves so does the shorter; models and levels allowed with more layers are allowed with fewer, and limits reached with fewer are reached with more |
| CapabilityGuard.CapabilityState.Select | packages/policy/src/capability-runtime.ts:18-22 | selecting a policy resets every counter and block |
| CapabilityGuard.GuardedSession.FallBack | packages/policy/src/capability-runtime.ts:78-79 | after the model check a first permitted level exists, and falling back to it permits the session |
| CapabilityGuard.GuardedSession.SetModel | packages/policy/src/capability-runtime.ts:73-80 | a model is accepted exactly when it is allowed; then its level is permitted; otherwise model and level stay |
| CapabilityGuard.GuardedSession.SetThinkingLevel | packages/policy/src/capability-runtime.ts:67-72 | a level is set exactly when there is no model or the model permits it |
| CapabilityGuard.GuardedSession.Prompt | packages/policy/src/capability-runtime.ts:81-93 | a prompt reaches the session exactly when no check refuses it, and every prompt ever sent was within limits, with an allowed model and a permitted level |
| Quota.EditorCompletionService.Prune | packages/paseo-adapter/src/editor-completion.ts:110-114 | pruning keeps exactly the attempts of the last day and deletes empty workspaces |
| Quota.EditorCompletionService.Load | packages/paseo-adapter/src/editor-completion.ts:96-106 | the usage file is read once; a missing one counts as empty, an unreadable one fails and is tried again |
| Quota.EditorCompletionService.ReserveLocked | packages/paseo-adapter/src/editor-completion.ts:95-125 | the whole new state for every outcome of reading, writing and renaming |
| Quota.DecisionIsExact | packages/paseo-adapter/src/editor-completion.ts:115-124 | admitted exactly when neither window is full; what is reported left is exact and not negative |
| QuotaRuns.QuotaHoldsOverAllTime | packages/paseo-adapter/src/editor-completion.ts:86-125 | in every run, with failed writes, crashes and restarts, every half-open minute holds at most 10 admissions of a workspace and every day at most 100 |
| QuotaRuns.StepKeepsInv | packages/paseo-adapter/src/editor-completion.ts:86-125 | every step of every call keeps the invariant that ties memory, disk and admissions |
| QuotaRuns.LockIsExclusive | packages/paseo-adapter/src/editor-completion.ts:86-93 | at most one call is between acquiring and releasing the lock, first come first served |
| QuotaRuns.LockIsReleased | packages/paseo-adapter/src/editor-completion.ts:86-93 | in any run without a crash a call and all before it are done after as many steps of theirs as they have work left, at most six each, whether or not these fail; until then one of them can step |
| QuotaRuns.OwnStepsProgress | packages/paseo-adapter/src/editor-completion.ts:86-125 | every step of a call, failing ones included, brings it closer to releasing the lock |
| QuotaRuns.StepsUseUpWork | packages/paseo-adapter/src/editor-completion.ts:86-125 | over any stretch of a run the steps of the first calls use up at least as much of their work |
| QuotaRuns.StepsDoNotSetBack | packages/paseo-adapter/src/editor-completion.ts:86-125 | no step of another call sets a call back |
| QuotaRuns.AdmissionIsDurable | packages/paseo-adapter/src/editor-completion.ts:119-124 | an admission is in the usage file before it is returned, and its remainders are exact for that file |
| QuotaRuns.AdmissionsSurvive | packages/paseo-adapter/src/editor-completion.ts:96-123 | every admission of the last day is in the usage file in every later state |
| FlowchartParse.Parse | packages/paseo-adapter/src/flowchart.ts:121-146 | an error exactly when no valid node is among the first 72; otherwise a well-formed graph, the first of each id and of each edge key |
| FlowchartParse.FirstByKeepsFirsts | packages/paseo-adapter/src/flowchart.ts:129-141 | deduplication keeps exactly the first element of each key |
| FlowchartParse.KeptIds | packages/paseo-adapter/src/flowchart.ts:129-134 | the ids edges are checked against are exactly the ids of the kept nodes |
| FlowchartParse.ParsedIsWellFormed | packages/paseo-adapter/src/flowchart.ts:121-141 | distinct ids, known endpoints, no loop at a node, no edge twice, within all limits |
| FlowchartParse.FirstNodeWins | packages/paseo-adapter/src/flowchart.ts:121-130 | the first valid record of an id becomes the node |
| FlowchartParse.EdgeKeptExactlyWhenNamesAreShort | packages/paseo-adapter/src/flowchart.ts:125-134 | an edge that names two listed nodes is kept, as itself or an earlier one with its key, exactly when neither id is over 80 characters |
| FlowchartParse.LinksAreSafe | packages/paseo-adapter/src/flowchart.ts:64-75 | source links name only files the generator read and may show; related files are distinct, at most six and not the file itself |
| Layering.ComputeDepths | packages/paseo-adapter/src/flowchart-ui.ts:251-259 | the relaxation with its early exit equals as many full passes as there are nodes |
| Layering.DepthsInRange | packages/paseo-adapter/src/flowchart-ui.ts:252-259 | for any graph depths stay between 0 and n - 1 |
| Layering.DepthsAreLongestWalks | packages/paseo-adapter/src/flowchart-ui.ts:251-259 | without cycles depths are the lengths of longest incoming paths |
| Layering.CapNeverBites | packages/paseo-adapter/src/flowchart-ui.ts:255 | without cycles the cap of n - 1 never applies |
| Layering.RightwardExactlyWhenAcyclic | packages/paseo-adapter/src/flowchart-ui.ts:251-259 | every edge leads to a deeper layer exactly when there is no cycle |
| Layout.BuildColumns | packages/paseo-adapter/src/flowchart-ui.ts:260-262 | columns are the occurring depths in order, each with its nodes in node order |
| Layout.PlaceNodes | packages/paseo-adapter/src/flowchart-ui.ts:268-273 | every node is placed at its column and row |
| Layout.NodesAreLaidOut | packages/paseo-adapter/src/flowchart-ui.ts:263-274 | node rectangles are pairwise disjoint and inside the view box, and shallower nodes lie strictly to the left |
| Layout.EdgesGoRight | packages/paseo-adapter/src/flowchart-ui.ts:251-273 | without cycles every edge goes strictly rightward |
| Labels.FindBox | packages/paseo-adapter/src/flowchart-ui.ts:322-330 | the search with both checks finds the first offset that misses every node, whatever labels there are |
| Labels.PlaceLabels | packages/paseo-adapter/src/flowchart-ui.ts:297-333 | each label is placed as if it were the only one |
| Labels.FoundLabelsMissNodes | packages/paseo-adapter/src/flowchart-ui.ts:324-330 | a label with a found offset overlaps no node; the fallback is taken only if every offset touches one |
| LabelOverlaps.SearchFindsShift | packages/paseo-adapter/src/flowchart-ui.ts:303-330 | for every edge of a drawing the search succeeds; its offset is zero between columns, and in a column the shortest way out of the nearest row, up first |
| LabelOverlaps.OddSpanKeepsAnchor | packages/paseo-adapter/src/flowchart-ui.ts:303-328 | the label of every edge an odd number of columns long, back edges included, stays at its anchor |
| LabelOverlaps.OverlapExactly | packages/paseo-adapter/src/flowchart-ui.ts:303-331 | two labels overlap exactly when their edges have the same middle column or gap and the heights given by rows, anchors and sizes are too close |
| LabelOverlaps.OddSpansOverlapExactly | packages/paseo-adapter/src/flowchart-ui.ts:303-331 | for edges an odd number of columns long: the same gap, and anchors closer than half both heights |
| Wrap.WrapWords | packages/paseo-adapter/src/flowchart-ui.ts:227-247 | at most maxLines lines of at most max characters; whole and greedy if the text fits, otherwise its first greedy lines with the last one cut and marked |
| Wrap.GreedyKeepsText | packages/paseo-adapter/src/flowchart-ui.ts:232-241 | joining the wrapped lines gives the text back |
| Drawing.DrawGraph | packages/paseo-adapter/src/flowchart-ui.ts:249-274 | for every parsed graph: rectangles disjoint and in the view box; all edges rightward exactly when there is no cycle |
| Drawing.DrawLabels | packages/paseo-adapter/src/flowchart-ui.ts:297-333 | in every drawing of a parsed graph no label touches a node, and no two labels overlap exactly when no two edges collide by places and sizes |
| Drawing.LabelsOverlapExactly | packages/paseo-adapter/src/flowchart-ui.ts:297-333 | in every drawing, two labels overlap exactly when their edges collide by places and sizes |
| Drawing.ParallelEdgesCollide | packages/paseo-adapter/src/flowchart-ui.ts:297-333 | in every drawing, labels of parallel forward edges overlap if they end up between columns or have equal heights |
| PublishingTrace.AtMostOneRepository | packages/publishing/src/publishing-service.ts:64-105 | over any sequence of calls the repositories created are those lost and at most one more; each loss costs two failed writes of its call |
| PublishingTrace.LostExactly | packages/publishing/src/publishing-service.ts:75-150 | a call loses the repository it created exactly when every later write failed, at least two; otherwise the record names that repository at the end |
| PublishingTrace.CreatedIsNamed | packages/publishing/src/publishing-service.ts:78-105 | every record written after a creation in the same call names the created repository |
| PublishingLosses.LoseRepositories | packages/publishing/src/publishing-service.ts:39-151 | replies on which n calls of publish create n repositories, none recorded, with two failed writes each |
| PublishingTrace.CreationNeedsConsent | packages/publishing/src/publishing-service.ts:60-79 | every repository was created after consent and a clean scan in the same call, with no origin and none saved |
| PublishingTrace.PushNeedsCleanScan | packages/publishing/src/publishing-service.ts:60-119 | every push follows a scan of the same call without issues and an agreeing origin, and goes to the recorded repository that origin names |
| PublishingTrace.CallsEndSettled | packages/publishing/src/publishing-service.ts:130-150 | when publish ends, the saved deployment is published or failed unless the last write failed |
| PublishingTrace.HistoryStaysFine | packages/publishing/src/publishing-service.ts:136-145 | the saved history is newest first with at most 20 entries |
| PublishingTrace.RepositoryStaysSaved | packages/publishing/src/publishing-service.ts:68-160 | a recorded repository is never forgotten, and the record keeps its owner and name as long as lookups are answered as asked |
| PublishingTrace.RecordRenamesExactly | packages/publishing/src/publishing-service.ts:68-105 | in any allowed sequence of effects, a record replaces the saved repository exactly when the lookup of its call answered with another one |
| PublishingService.Publisher.RenamesExactly | packages/publishing/src/publishing-service.ts:68-148 | a call of publish leaves the record naming another repository exactly on replies that answer the lookup with one and let one of the following writes succeed |
| PublishingLosses.RenameRepository | packages/publishing/src/publishing-service.ts:39-151 | replies on which the record names the repository created in a first call of publish, and after a second call another one |
| PublishingService.Publisher.Publish | packages/publishing/src/publishing-service.ts:39-151 | succeeds exactly on the replies that let every step succeed: then pushed, deployed, and recorded as published at the address of the first report of a finished build of the pushed commit, with a new first history entry; a failure is recorded in front of the history unless the last write failed; the record names the chosen repository exactly when one of the writes after the choice succeeds, and a new one is lost exactly when both fail |
| PublishingService.Publisher.RemoveSite | packages/publishing/src/publishing-service.ts:153-161 | succeeds exactly with a recorded site and replies that allow it, and then removes exactly the deployment from the record; failure leaves the record |
| PublishingService.Publisher.Prepare | packages/publishing/src/publishing-service.ts:47-66 | succeeds exactly when every reply allows it, the scan is clean and origin agrees with the saved repository |
| PublishingService.Publisher.ChooseRepository | packages/publishing/src/publishing-service.ts:68-81 | the repository of origin is looked up, else the recorded one; only without either is one created, after consent; each exactly on its replies and with its effects |
| PublishingService.Publisher.CreateUniqueRepository | packages/publishing/src/publishing-service.ts:193-202 | creates the first of 50 names that GitHub reports free, exactly when the replies allow it, or nothing |
| PublishingService.Publisher.CommitChanges | packages/publishing/src/publishing-service.ts:107-116 | succeeds exactly when every call does; a commit is made exactly when there are changes or there is no commit yet, and the result names the current commit |
| PublishingService.Publisher.EnsureOrigin | packages/publishing/src/publishing-service.ts:204-212 | succeeds exactly when origin names the repository, or is absent and can be added; otherwise it stays as it is |
| PublishingService.Publisher.WaitForDeployment | packages/publishing/src/publishing-service.ts:214-223 | at most so many checks; the first report on the expected commit decides: a finished build gives its address, a failed one ends the wait, and it times out exactly when every check finds the build pending |
| PublishingService.Publisher.FirstReportDecides | packages/publishing/src/publishing-service.ts:215-221 | after checks that find the build pending, the next one alone decides between success and failure, whatever later replies would say |
| PublishingService.Publisher.RecordFailure | packages/publishing/src/publishing-service.ts:141-150 | the failure is put in front of the earlier history, cut to 20, and a failing write does not replace the error |
| Usage.EstimateIsLeast | packages/organization/src/usage.ts:28-35 | the estimate is the least whole number of micros at or above the exact cost; an error exactly for invalid numbers |
| Usage.SplittingCostsLittle | packages/organization/src/usage.ts:33-34 | splitting a usage into k events never lowers the estimate and raises it by at most k - 1 |
| Usage.SplittingBoundIsReached | packages/organization/src/usage.ts:33-34 | that bound is reached |
| Usage.BlockedExactly | packages/organization/src/usage.ts:44-49 | blocked exactly when a limit would be exceeded and neither quotient is undefined; the action follows |
| Usage.LedgerSafeExactly | packages/organization/src/usage.ts:44-49 | a ledger that admits what is not blocked keeps its limits for all events exactly when no limit is zero beside another |

## Left out

- Everything that only reads or writes the world: servers, bridges, the database, the GitHub CLI, git, the file system.
  Cores that need one see it as a parameter or as a script of replies.
- Pages, dashboards, the rest of the injected scripts, the terminal interface and the bundle patchers.
- Text heuristics by regular expression: intent routing, command classification, secret scanning, manifest and import
  patterns. What they extract is a parameter.
- SHA-256 and JSON: hashes are parameters, assumed free of collisions only where content agreement is claimed; decoding
  a record either gives it or fails.
- Date parsing, `localeCompare`, lower-casing and path normalisation are parameters or start from parsed values; times
  are integers, coordinates and ratios are reals, so rounding is not modelled.
- Uniqueness of evidence ids: one agent event that names two files gives two items with the same category and
  references (`packages/education/src/learning-evidence.ts:96-98`).
- Evidence.DeriveLearningEvidence: the event types are those the pass reacts to; others change nothing.
- CodebaseModel.Codebase.Get: calls that overlap and share the pending scan are not modelled, only sequences of calls;
  the clock stands still during one trace, so a trace never rescans midway.
- CodebaseModel.Codebase.Scan: languages, technologies, entry points, packages, scripts and the count of inspected files
  are not modelled.
- CodebaseModel.Codebase.Inspect: starts from a path relative to the project; the check for paths outside it, routes and
  the excerpt are not modelled.
- CodebaseModel.Codebase.Trace: the converse of its flag is weaker, because a queue of already visited files also sets
  it.
- ProjectScan.ScanTree: at exactly 1200 files the flag may be set or not; the directory contents do not change during a
  scan, and a listing names nothing twice.
- WorkflowController.Controller.UpdateLearningState: listeners that throw or call the controller again are not modelled.
- Intent routing (`packages/education/src/workflow-controller.ts:59-64`) only stores three fields.
- Resolution.ResolveEffectivePolicy: which of several errors is reported first is not specified, only whether there is
  one.
- Parsing of stored capability policies (`parseCapabilityPolicy`), finite tables of roles, scaffolding and assistance.
- CapabilityGuard.GuardedSession.Prompt: no policy is selected while a call waits, and the underlying setters store what
  they are given; explained limit messages are not modelled.
- Quota.EditorCompletionService.Load: workspaces are named by their hash, and a file holds only well-formed entries.
- FlowchartParse.Parse: starts from decoded records with values already converted to strings; type and explanation of a
  node, title and summary are not modelled.
- FlowchartParse.LinksAreSafe: symbols are not modelled.
- Wrap.WrapWords: starts from the words of the text.
- LabelOverlaps.SearchFindsShift: for labels of at most two lines, which is what `drawGraph` wraps them to.
- Node types, edge paths and drawing calls of `drawGraph`.
- PublishingService.Publisher.Publish: git preparation, project detection and the workflow file are one call each;
  provider labels, deployment types and progress messages are not modelled, and the wording of errors is a parameter;
  metadata is read reliably, progress callbacks do not throw, and the process does not stop in the middle of a call; the
  clock does not run backwards (`ClockMonotone`), without which the history would not stay newest first.
- PublishingTrace.AtMostOneRepository: a repository that GitHub creates while reporting an error is not counted.
- Usage.EstimateIsLeast: products are exact, while JavaScript rounds beyond 2^53.
