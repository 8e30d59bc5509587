# BaseHarbor protocols, verified

This project states, in Dafny, what the harder parts of BaseHarbor promise and proves it:

- the writers of merge receipts that share one Git branch (`ReceiptPublication`, `ReceiptPublisher`, on the commit graph of `GitDag`);
- the apply run on a Target (`ApplyLifecycle`), the confirmed edit of an application source under the Target lock (`EditSource`), the consent that survives such an edit (`AuthorizationSurface`), and what a run may claim afterwards (`ObservedOutcomes`);
- the trust decisions of continuous integration: the bounded walk over reviewed merges (`ReviewedMergeChain`), the diff base (`PrDiffBase`), the fail-closed planner (`GatePlan`, fed by `DiffPlanning`), the three readers of its plan (`SelectedGates`) and the interleaved diagnostics (`AtomicPlan`);
- the runner lanes that share one root directory (`LeaseAllocator`);
- strict JSON, JSON Pointer and schema references (`StrictWire`, `JsonPointer`, on the values of `Json`);
- text: the managed section of AGENTS.md (`AgentsSection`), names (`AppNames`) and the dialogue for durable names (`DurableNames`);
- stopping and restarting around a backup (`BackupRecovery`) and comparison without order (`RequirementComparison`, on `Sorting`).

## How it is modelled

Concurrent protocols are state machines over values: an event is one indivisible action of one
participant, `Step` is what the code does at that point, and a property is proved for `Run` over
every sequence of events from every initial state. Actions of others, pushes that land but report a
failure, foreign writes and partial effects are events like any other. Sequential code that changes
state is a class or a method with the loops of the original, proved against a function or predicate
that says what it achieves; the properties are then proved about that function or predicate.

Safety is one half: for the publication of a receipt, the lanes and the edit it is also proved that
they succeed when nothing disturbs them, and each decision of these machines and of the planner,
the readers and the reports is stated once more by the names and values it depends on, in lemmas
called `…Exactly`.

What the code does not decide is a parameter: the answers of git and of the runtime, which steps of
an apply run succeed, the tables of Unicode, the file lists of the planner. Hashes are assumed
injective where a commit is named by its identifier (`ReviewedMergeChain.Valid`); receipts identify
commits with their content.

Where the code differs from what its comments or a quick reading suggest, the exact condition is proved:

- A registry reconciliation replaces the bindings of its own application only and keeps every registered instance (`internal/application/provider_registry.go:68-97`), so an owner outlives the release of its binding. What the order of retirement and release protects is the binding, and this is what `ApplyLifecycle` proves as well.
- The last comparison before the rename of an edited source does not protect against a writer outside the lock. An edit starts from other bytes than it compared exactly if the write just before it is foreign and of other bytes (`EditSource.OtherBytesAreReplacedExactly`, with a run in `EditSource.OvertakenForeignBytesAreLost`).
- A lane directory is named after 24 digits, the resources of a lane after 20: two lanes own a common name exactly if their first 20 digits agree (`LeaseAllocator.CommonNameExactly`), and different directories do not rule that out (`LeaseAllocator.DirectoriesDoNotSeparateNames`).
- A `prepare` that fails late can remove a directory another process made (`LeaseAllocator.LateAbortRemovesForeignLane`): exactly if another process had removed its own lane before (`LeaseAllocator.ForeignAbortExactly`). When no identity is finalized before its prepare is over, this cannot happen.
- The owner in an outcome is the registry entry's exactly if the observed fact is not ancillary or names the same owner; an ancillary fact brings its own (`cmd/baha/app_apply_result.go:314-316`, `ObservedOutcomes.AncillaryOwnerIsNotTheEntrys`).
- The restart after a backup covers everything that may have stopped exactly if the workload stop, which alone is believed, was not reached, reported something, or touched nothing. A container that is neither running nor in one of three stopped states is not reported (`internal/runtime/service_stop.go:152-158`), so a failed stop can leave it out.
- Comparing sorted preferences decides equality exactly when the (kind, name, instance) keys are distinct.
- A reviewed bundle, unlike the path classification, is not closed under taking parts (`GatePlan.PartOfBundleResolvedExactly`).
- An empty status in a name-status listing is an uncaught `IndexError`, not the parser's `ValueError`: it happens exactly on complete records followed by a path without a status (`PrDiffBase.ParserFailsExactly`), and then aborts the whole resolution (`PrDiffBase.ResolvePrDiff`, with a listing in `PrDiffBase.EmptyStatusIsNotCaught`).

## Model

| member | source | states |
|---|---|---|
| ReceiptPublication.CheckCommitRecord | scripts/receipt_writer.py:39-45 | bytes are accepted only as the canonical form of a valid record, which is returned |
| ReceiptPublication.CanonicalRoundTrip | scripts/receipt_writer.py:28-45 | canonical bytes read back as the record they were made from, for every valid record |
| ReceiptPublication.BytesExactly | scripts/receipt_writer.py:28-29 | the canonical bytes, written out |
| ReceiptPublication.ReceiptsExactly | scripts/receipt_writer.py:39-63 | a path and bytes are a receipt exactly if the bytes are those of a valid record and the path is named after its commit |
| ReceiptPublication.ValidRecordExactly | scripts/receipt_writer.py:24-45 | a record is valid exactly with 40 lower-case hexadecimal digits and a positive pull request |
| ReceiptPublication.FastForwardIsCompareAndSwap | scripts/receipt_writer.py:129-138 | a push that is not forced, of a receipt commit built on a former `main`, lands only if `main` is still that commit or already the receipt commit |
| ReceiptPublication.DecideKeepsGood | scripts/receipt_writer.py:122-136 | one attempt leaves the writer returned with the remote bytes equal to its own, failed, or holding a fresh single-file commit with its bytes directly on the fetched commit; every reset it made dropped only a commit of this one file that held its bytes |
| ReceiptPublication.CommitExactly | scripts/receipt_writer.py:66-80 | committing succeeds exactly on a clean checkout without other bytes under the path when git works; it keeps a HEAD that has the bytes and makes one commit of the file otherwise |
| ReceiptPublication.EnterExactly | scripts/receipt_writer.py:111-117 | the publication starts exactly on a clean checkout at the given commit whose tree holds a receipt under the path |
| ReceiptPublication.DecideExactly | scripts/receipt_writer.py:122-136 | an attempt returns exactly if the fetched `main` has the bytes, and replays its commit exactly if `main` lacks the path, the checkout is clean at a commit of this one file, `main` has its parent, and git works |
| ReceiptPublication.PushExactly | scripts/receipt_writer.py:137-139 | a push lands exactly if it is delivered and extends `main`; without acknowledgement one of three attempts is used up |
| ReceiptPublication.StepKeepsInv | scripts/receipt_writer.py:111-139 | every action of every participant keeps the invariant: each earlier `main` is an ancestor, receipts keep their bytes, every writer is consistent with the history; the history only grows |
| ReceiptPublication.RunKeepsInv | scripts/receipt_writer.py:111-139 | the invariant over all interleavings of any number of writers |
| ReceiptPublication.ReceiptsAreWriteOnce | scripts/receipt_writer.py:118-139 | of any two former states of `main` the earlier is an ancestor of the later and every receipt of the earlier has the same bytes in the later |
| ReceiptPublication.ReceiptAddedOnce | scripts/receipt_writer.py:66-80 | at most one advance of `main` adds a given receipt path |
| ReceiptPublication.WriterAddsOnlyItsReceipt | scripts/receipt_writer.py:128-138 | a writer changes `main` only by one commit that adds its own absent receipt and leaves all other files as they are |
| ReceiptPublication.ReturnedIsPublished | scripts/receipt_writer.py:122-125 | a successful return names a commit that was `main` and holds the writer's bytes; `main` holds them after any further activity |
| ReceiptPublication.ConflictingWritersDoNotBothSucceed | scripts/receipt_writer.py:123-125 | two successful writers of one path had the same bytes |
| ReceiptPublication.ResetLosesOnlyTheReceipt | scripts/receipt_writer.py:126-135 | every commit reachable from a HEAD that `reset --hard` replaced is reachable from `main`, or is a one-parent commit whose tree is its parent's with exactly the writer's bytes put at the receipt's path |
| ReceiptPublication.LostAcknowledgementIsRecognised | scripts/receipt_writer.py:118-139 | a push that landed but reported failure is recognised by the next attempt after any activity of others; nothing more is pushed |
| ReceiptPublication.UndisturbedAttemptPublishes | scripts/receipt_writer.py:118-138 | an undisturbed attempt publishes the receipt as one commit on top of `main`, however far `main` has moved past the local commit |
| ReceiptPublication.FreshWriterPublishes | scripts/receipt_writer.py:66-138 | from an idle writer on a clean checkout of any ancestor of `main`: commit, entry checks and one undisturbed attempt publish the receipt |
| ReceiptPublisher.OwnActionPhases | scripts/receipt_writer.py:118-139 | where each action of the loop can leave the phase and the attempt counter of its writer |
| ReceiptPublisher.PassiveKeepsPhase | scripts/receipt_writer.py:111-139 | nothing that others do changes the phase or the attempts of a writer |
| ReceiptPublisher.Planning.Attempt | scripts/receipt_writer.py:118-138 | one turn of the loop: ended with a result, or one push and one attempt used up; what happened is this turn, whole unless it ended |
| ReceiptPublisher.Planning.Publish | scripts/receipt_writer.py:111-139 | whatever the world does in between, what has happened is the script of the given turns up to the writer's last action, and the result is that of the whole script; it pushes at most three times; it succeeds if one of its turns is undisturbed and all before it at most lost their push |
| ReceiptPublisher.WorkingTurn | scripts/receipt_writer.py:118-138 | a turn whose commands work ends in success, or with one attempt fewer and everything in place for the next; an undisturbed one ends in success |
| ReceiptPublisher.FavourableScriptPublishes | scripts/receipt_writer.py:111-139 | with working commands up to an undisturbed turn, and nobody publishing other bytes for the commit, the script ends in success |
| GitDag.AncestorTransitive | scripts/receipt_writer.py:132 | ancestry is transitive, as `merge-base --is-ancestor` decides it |
| GitDag.AncestorAntisymmetric | scripts/receipt_writer.py:132 | two commits that are ancestors of each other are one commit |
| GitDag.AncestorExactly | scripts/receipt_writer.py:132 | the ancestors are exactly what the parents lead to, the commit itself included |
| ReviewedMergeChain.Inspect | scripts/pr-gate-plan.py:647-662 | one iteration succeeds exactly on a clean merge of trusted history when its git commands work, and continues with the first parent |
| ReviewedMergeChain.Trusted | scripts/pr-gate-plan.py:627-663 | true exactly when 0 to 63 clean-merge steps lead from head to the reviewed commit and the commands to follow them work |
| ReviewedMergeChain.AcceptedHistory | scripts/pr-gate-plan.py:628-633 | every commit reachable from an accepted head is reachable from the reviewed commit, from the target, or is one of the clean chain merges |
| ReviewedMergeChain.ChainDescends | scripts/pr-gate-plan.py:645-662 | the reviewed commit is an ancestor of the head, and lies at least as many levels lower as the chain has steps |
| ReviewedMergeChain.NoShorterChain | scripts/pr-gate-plan.py:644-663 | the number of steps between two commits is determined |
| ReviewedMergeChain.LongChainRefused | scripts/pr-gate-plan.py:644-663 | a chain of 64 or more clean merges is refused |
| PrDiffBase.ParseNameStatus | scripts/pr-diff-base.py:53-83 | the loop computes the parse of the NUL-separated fields |
| PrDiffBase.ParseUndoesPrint | scripts/pr-diff-base.py:53-83 | parsing the printed form of any list of NUL-free records gives those changes |
| PrDiffBase.CutShortIsRefused | scripts/pr-diff-base.py:62-75 | complete fields followed by a record cut short are refused |
| PrDiffBase.CutListingIsRefused | scripts/pr-diff-base.py:53-75 | the same for the raw listing |
| PrDiffBase.AcceptedFieldsArePrinted | scripts/pr-diff-base.py:53-83 | accepted fields are the printed fields of the records read from them, so fields of neighbours never mix |
| PrDiffBase.ListingAcceptedExactly | scripts/pr-diff-base.py:53-83 | a raw listing is accepted exactly if it lists complete records, its last field terminated or not, and then gives their changes |
| PrDiffBase.ParserFailsExactly | scripts/pr-diff-base.py:62-82 | the parser raises its own error exactly on complete records followed by one cut short, and meets an empty status exactly on complete records followed by a path without status |
| PrDiffBase.LetterMeans | scripts/pr-diff-base.py:53-83 | what each status letter means; other statuses are kept as they are |
| PrDiffBase.MoveMeans | scripts/pr-diff-base.py:62-75 | a rename or copy with the similarity that git prints |
| PrDiffBase.AddedThenDeleted | scripts/pr-diff-base.py:53-83 | the listing of one added and one deleted file reads as exactly that |
| PrDiffBase.EmptyStatusIsNotCaught | scripts/pr-diff-base.py:82-164 | the listing of one path with an empty status, on a comparable pair, leads to the abort |
| PrDiffBase.ResolvePrDiff | scripts/pr-diff-base.py:86-165 | narrow exactly if every fact is proved and the listing parses, and then its changes; aborts exactly if every fact is proved and the listing has an empty status; otherwise broad coverage, no changes, and as its one reason the fact that fails with all before it proved |
| PrDiffBase.OneReasonExactly | scripts/pr-diff-base.py:86-165 | there is such a reason exactly if not every fact is proved or the listing is missing or cut short, and never more than one |
| PrDiffBase.GivenExactly | scripts/pr-diff-base.py:100-102 | an integration is asked for exactly by a name that is not empty |
| GatePlan.ClassifyPaths | scripts/pr-gate-plan.py:1096-1526 | the loop accumulates the gates and checks of all paths and stays free of problems exactly if every path is classified without one |
| GatePlan.OneBranch | scripts/pr-gate-plan.py:1096-1526 | every path takes exactly one branch of the chain |
| GatePlan.ClassifyByBranch | scripts/pr-gate-plan.py:1096-1526 | a path brings exactly the gates and checks of the branch it takes |
| GatePlan.QualifiedIsUnresolved | scripts/pr-gate-plan.py:1126-1136 | the qualified path always keeps a problem, and a second one unless it is alone, added and on a trusted head |
| GatePlan.MappedExactly | scripts/pr-gate-plan.py:1096-1526 | the gates and checks of a change are exactly those of the branches that the last changes of its paths take |
| GatePlan.PlanByPath | scripts/pr-gate-plan.py:1096-1547 | a plan is resolved exactly if nothing was wrong before, no path has a problem and every mapped gate is in the catalog; it selects exactly the gates of the branches taken that the catalog has, all of them when resolved, and requires exactly their checks |
| GatePlan.PartsOfResolvedChangeAreResolved | scripts/pr-gate-plan.py:1096-1547 | every non-empty part of a resolved change of distinct paths is resolved with a subset of its gates and checks |
| GatePlan.SmallerChangeSameImpact | scripts/pr-gate-plan.py:1292-1307 | a path classified without a problem is classified alike in every smaller change, although one branch looks at all paths |
| GatePlan.PlanChange | scripts/pr-gate-plan.py:751-905 | the first applicable reviewed bundle decides, only on an integrated diff without earlier problems; otherwise the paths decide; resolved exactly if what decides has its gates and leaves no problem |
| GatePlan.BundleIsExact | scripts/pr-gate-plan.py:785-885 | an applicable bundle lists the changed paths, each once and with the reviewed status, and nothing besides; one compared by the path of each change has no rename or copy |
| GatePlan.AppliesExactly | scripts/pr-gate-plan.py:785-885 | a bundle applies exactly if its head is trusted and the change is the reviewed paths, each once with its status, without rename or copy unless it is compared path by path |
| GatePlan.CleanExactly | scripts/pr-gate-plan.py:1096-1526 | paths are clean exactly if each is claimed without a problem by the branch that reaches it, the qualified path never and a command source only as a test among tests or by an earlier branch, and the gates exist |
| GatePlan.PartOfBundleResolvedExactly | scripts/pr-gate-plan.py:785-885 | a part of a change that a bundle resolves is resolved exactly if another bundle describes it with existing gates, or none does and each of its paths settles by itself with existing gates |
| GatePlan.PartOfBundleMayBeUnresolved | scripts/pr-gate-plan.py:877-894 | under every policy whose earlier branches do not claim a command source: the two files of a bundle are resolved, the one alone is not |
| DiffPlanning.Intake | scripts/pr-gate-plan.py:769-784 | one problem for every change with an unknown status or an unsafe path, the entries of all others |
| DiffPlanning.Admit | scripts/pr-gate-plan.py:763-786 | no problem exactly if the diff is valid, not broad and every change can be planned |
| DiffPlanning.PlannableExactly | scripts/pr-gate-plan.py:772-784 | which changes can be planned, by their status and the parts of their paths, and the entries they list |
| DiffPlanning.SafePathExactly | scripts/pr-gate-plan.py:781-782 | usable paths are relative and have no part `..` |
| DiffPlanning.AdmissibleExactly | scripts/pr-gate-plan.py:763-786 | a diff can be classified exactly if its commits are named by 40 hexadecimal digits, it is not broad and every change can be planned |
| DiffPlanning.PlanDiff | scripts/pr-gate-plan.py:751-1547 | a plan is resolved exactly if its diff is valid, not broad and plannable, and a bundle describes it exactly or every path is classified cleanly |
| DiffPlanning.Assess | scripts/pr-gate-plan.py:722-746 | a candidate is trusted exactly if the bounded walk from the head reaches its reviewed commit and, for a guarded one, repository and branch are the expected ones and resolving the revisions again gives the same diff |
| DiffPlanning.Confirm | scripts/pr-gate-plan.py:722-746 | decides exactly whether resolving the identifiers of a diff again gives the same narrow diff |
| DiffPlanning.SelfResolvingIsReproduced | scripts/pr-gate-plan.py:735-743 | where full identifiers resolve to themselves that is always so |
| DiffPlanning.PlanRevision | scripts/pr-diff-base.py:86-165 | from git's answers to the plan of the two given revisions: aborts exactly on an empty status; resolved exactly if everything is proved, the listing can be planned, and a trusted candidate or a clean classification justifies it |
| DiffPlanning.CandidateAccountsForEverything | scripts/pr-gate-plan.py:627-663 | when a candidate decides, every commit reachable from the head is reachable from the reviewed commit or the target or is a clean trusted merge, and the change has exactly the reviewed files |
| DiffPlanning.BothSidesOfAMoveAreListed | scripts/pr-gate-plan.py:772-784 | in a resolved plan both paths of every rename and copy have been classified |
| SelectedGates.Select | scripts/pr-selected-runtime-matrix.py:8-24 | succeeds exactly on distinct gates within the catalog; splits them into runtime gates and unsupported ones, both in order and without repeats |
| SelectedGates.Requests | scripts/pr-runtime-request.py:13-53 | succeeds exactly if the plan and every runtime gate are complete; exactly one request per runtime gate, in order, naming the plan's commits and exactly the given pins it depends on |
| SelectedGates.Verify | scripts/pr-required-final.py:11-56 | the error list is empty exactly if the plan is resolved, matches head and integration, every gate has an executor and every required job succeeded and none failed |
| SelectedGates.CollectRequired | scripts/pr-required-final.py:31-41 | the required jobs of the gates, and an error exactly if some gate has no executor |
| SelectedGates.CheckJobs | scripts/pr-required-final.py:49-56 | no error exactly if every required job succeeded and no job was unsuccessful |
| SelectedGates.RuntimeGateExactly | scripts/pr-selected-runtime-matrix.py:8-24 | the native gates are exactly `atomic/docker/` and `atomic/podman/` followed by a name |
| SelectedGates.ExecutableExactly | scripts/pr-required-final.py:31-41 | a gate has an executor exactly if it is native or the public contracts |
| SelectedGates.RequiredExactly | scripts/pr-required-final.py:31-48 | the required jobs by name: four always, three for native gates, one for the public contracts, and the pin job that the dependencies choose |
| SelectedGates.AllRequestableExactly | scripts/pr-runtime-request.py:13-42 | which plans can be requested: schema, four full commits, known pins, distinct catalog gates, and for every native gate known consumers with the core and a full pin for each other one |
| SelectedGates.RequestMatchesExactly | scripts/pr-runtime-request.py:36-52 | a request names the plan's four commits and carries exactly the pins its gate needs, as given |
| SelectedGates.CertifiedExactly | scripts/pr-required-final.py:11-56 | what an empty error list certifies, by the names of schema, gates, jobs and results |
| SelectedGates.ReadersAgree | scripts/pr-required-final.py:11-56 | on one plan the three readers succeed exactly on their conditions; matrix and requests then list the same gates in the same order; an empty error list means no gate is unsupported and the executor of every selected gate succeeded |
| AtomicPlan.RemainingPlan | scripts/targeted-atomic-plan.py:8-22 | succeeds exactly if the release is known, all rows are well formed and both lanes have jobs; the plan is the fair arrangement of exactly the jobs that some required row `atomic/<runtime>/<gate>` other than the guided one names |
| AtomicPlan.JobOfExactly | scripts/targeted-atomic-plan.py:13-18 | which row stands for which job, by name |
| AtomicPlan.ParsableExactly | scripts/targeted-atomic-plan.py:14-16 | a row is malformed exactly if it is required, starts with `atomic/` and does not have three parts |
| AtomicPlan.InterleavedIsFair | scripts/targeted-atomic-plan.py:21-22 | the interleaving is a permutation that keeps each lane's order, and in every prefix docker leads by at most one until a lane is exhausted |
| AtomicPlan.FairArrangementIsUnique | scripts/targeted-atomic-plan.py:20-22 | there is only one such arrangement |
| ApplyLifecycle.ReconciledBindings | internal/application/provider_registry.go:68-97 | a reconciliation leaves the bindings of others alone and frees only what this application alone held |
| ApplyLifecycle.Target.WriteRecord | cmd/baha/deployment_record.go:20-90 | a record write happens whole or not at all |
| ApplyLifecycle.Target.RetainOwners | internal/application/provider_registry_pending.go:9-35 | owners are added and none dropped |
| ApplyLifecycle.Target.Reconcile | internal/application/provider_registry.go:85-97 | bindings of this application become the desired ones; requires that nothing it alone released still runs |
| ApplyLifecycle.Target.Fail | cmd/baha/app_apply.go:201-209 | marks the record failed and returns the cause, with the record error joined to it |
| ApplyLifecycle.Target.StartManagedRuntime | cmd/baha/app_apply.go:297-351 | succeeds exactly if nothing is application-scoped, or the environment can be read, one of three attempts starts after all before it ended in a port conflict with every repair successful, and the reconciliation succeeds; says how often it starts, each time with the environment of the latest port allocation, and what then runs |
| ApplyLifecycle.Target.TryStart | cmd/baha/app_apply.go:310-349 | another attempt follows exactly after a port conflict that is not the last and was cleaned up, reallocated and configured anew |
| ApplyLifecycle.ComesUpExactly | cmd/baha/app_apply.go:297-351 | the three attempts written out |
| ApplyLifecycle.OnlyTheLastAttemptStays | cmd/baha/app_apply.go:310-349 | when a start succeeds after conflicts, what runs is part of what ran before all attempts and of what this start created |
| ApplyLifecycle.Target.PrepareRuntime | cmd/baha/app_apply_lifecycle.go:189-282 | succeeds exactly if the providers were prepared and the runtime comes up; a failed preparation starts nothing |
| ApplyLifecycle.Target.RetireReleased | cmd/baha/application_provider_retirement.go:53-173 | stops nothing that this application asks for or anybody else is bound to, and when it succeeds everything this application released alone; older unneeded providers may go with it |
| ApplyLifecycle.Target.Provision | cmd/baha/app_apply.go:163-186 | every state on the way is sound: what runs has an owner; a completed provisioning has retained all desired owners |
| ApplyLifecycle.Target.Settle | cmd/baha/app_apply.go:187-197 | retirement, then bindings, then the verified record, each only if all before it succeeded; says what is left at each failure; success leaves exactly the desired bindings and nothing released running |
| ApplyLifecycle.Target.ConvergeDesired | cmd/baha/app_apply.go:158-199 | begins with the record "applying" and changes nothing if that fails; owners, bindings, runtime and record at the end are those of the step that failed, and a failure is recorded unless recording it fails too, which is reported |
| ApplyLifecycle.Target.Apply | cmd/baha/app_apply.go:88-209 | in every state of a run, including each failure and crash point, every running provider has an owner, no owner is dropped, no binding in use is lost, other consumers keep theirs, and a record is neither "applying" nor "failed" only once retirement and bindings are settled; the result and the whole final state are those of the first step that fails |
| ApplyLifecycle.LastRecord | cmd/baha/app_apply.go:88-209 | outside remote targets the last record depends only on the record before, the first failing step and whether recording the failure works |
| ApplyLifecycle.ApplyingStaysExactly | cmd/baha/app_apply.go:201-209 | after its first write a run leaves "applying" exactly if it fails before the verified record is written and recording the failure fails too; in front of it exactly if it was there and stays |
| ApplyLifecycle.LastSuccessDecides | cmd/baha/app_apply.go:88-199 | after any earlier runs, failed or not, a successful run leaves its application bound to exactly what it asks for, with owners for all of it, nothing that it alone released running, and the observed status recorded |
| ApplyLifecycle.RunFailsFirst | cmd/baha/app_apply.go:88-199 | the failure a run reports is the one first step on its path, with or without an edit, that does not succeed; none exactly if all do |
| ApplyLifecycle.Target.ApplyMany | cmd/baha/app_apply.go:88-199 | over every sequence of runs for any applications and sources: the same ownership, the bindings of uninvolved consumers, the exact result of each run and the exact final state; "applying" stays the last record only if no run wrote it or one could not record its failure |
| EditSource.ReplacementsFormAChain | cmd/baha/app_edit_apply_result.go:41-66 | each replacement starts where the previous ended; an editor makes at most one, to its desired bytes, from exactly the bytes it hydrated except exactly when foreign bytes overtook its last comparison |
| EditSource.OtherBytesAreReplacedExactly | cmd/baha/app_edit_apply_result.go:223-232 | an edit starts from other bytes than it compared exactly if the write just before it is foreign and of other bytes |
| EditSource.SecondEditNeedsARestore | cmd/baha/app_edit_apply_result.go:196-234 | of two editors hydrated from the same bytes the later replaces the source only if these bytes had been put back |
| EditSource.RefusalLeavesNoTrace | cmd/baha/app_edit_apply_result.go:110-155 | a refused edit has replaced no source and saved no preferences |
| EditSource.RefusesExactly | cmd/baha/app_edit_apply_result.go:101-235 | the findings and failures at which an editor refuses, all of them |
| EditSource.PassesChecksExactly | cmd/baha/app_edit_apply_result.go:112-160 | the checks are passed exactly if the run is not canceled, Target and view are right, the plan is unchanged, the consent is valid and the preferences are readable and, if they change, valid |
| EditSource.PastChecksWasChecked | cmd/baha/app_edit_apply_result.go:112-160 | in every run, whatever an editor does after its checks rests on a check of its own, inside the lock, that found all of this in order |
| EditSource.WritersWereChecked | cmd/baha/app_edit_apply_result.go:112-179 | so whoever replaced the source or saved preferences passed its checks |
| EditSource.UndisturbedEditSucceeds | cmd/baha/app_edit_apply_result.go:112-235 | an edit in order on the source it hydrated, with nobody in between, leaves the desired source and preferences and a free lock |
| EditSource.PreferencesFollowTheSource | cmd/baha/app_edit_apply_result.go:168-177 | preferences are saved only after the source step succeeded or was not needed |
| EditSource.OnlyTheLockHolderMutates | cmd/baha/app_apply.go:96-120 | source and preferences change only by a foreign write or by the one editor inside the lock, to its own values |
| EditSource.StepKeepsInv | cmd/baha/app_edit_apply_result.go:101-179 | every action of every editor and of foreign writers keeps the invariant |
| EditSource.RunKeepsInv | cmd/baha/app_edit_apply_result.go:101-179 | the invariant over all interleavings |
| EditSource.OvertakenForeignBytesAreLost | cmd/baha/app_edit_apply_result.go:223-232 | a run in which bytes written by a foreign process between the last comparison and the rename are replaced |
| AuthorizationSurface.StripViews | cmd/baha/app_apply_result.go:122-137 | stripping hides exactly the paths that cross metadata and shows every other path unchanged |
| AuthorizationSurface.StripIsIdempotent | cmd/baha/app_apply_result.go:122-137 | stripping twice is stripping once |
| AuthorizationSurface.SameSurfaceExactly | cmd/baha/app_apply_result.go:100-120 | two plans have one surface exactly if they agree on every path without an `evidence` key that does not start with a top-level `plan_id` or `revision` |
| AuthorizationSurface.SignificantExactly | cmd/baha/app_apply_result.go:122-137 | stripping spares a path exactly if it has no `evidence` key and does not start with `plan_id` or `revision` |
| AuthorizationSurface.ValidatedExactly | internal/application/provider_change_consent.go:12-37 | a consent is valid exactly if it names the plan, gives every confirmation that the plan asks for, and agrees to a deletion if the plan is destructive |
| AuthorizationSurface.CarriedConsentIsSufficient | cmd/baha/app_apply_result.go:80-98 | consent is carried exactly if it was valid for the approved plan and the plans agree on every significant path; it then satisfies the current plan and differs in the plan id only |
| AuthorizationSurface.FieldAgrees | internal/application/provider_change_consent.go:12-37 | the fields that consent is checked against agree on one surface |
| AuthorizationSurface.Node.Scrub | cmd/baha/app_apply_result.go:122-137 | the scrub in place turns the tree into its stripped value, whatever the order of its members |
| AuthorizationSurface.Node.ScrubFields | cmd/baha/app_apply_result.go:124-131 | visiting the members in any order deletes exactly the metadata and strips the others |
| AuthorizationSurface.Node.ScrubItems | cmd/baha/app_apply_result.go:132-136 | every element is stripped in place |
| Json.ViewsDetermineValue | cmd/baha/app_apply_result.go:100-107 | two JSON values that look alike at every path are equal |
| ObservedOutcomes.ObservedOutcomes | cmd/baha/app_apply_result.go:152-181 | at most one outcome per impact, in plan order, none left out; the report is truthful; none without both observations |
| ObservedOutcomes.AuthoritativeRealization | cmd/baha/app_apply_result.go:302-329 | identity, kind, scope and ownership come from the first BaseHarbor-owned registry entry of the instance, the owner from it unless the fact is ancillary |
| ObservedOutcomes.SqlNewConsumer | cmd/baha/app_apply_result.go:214-274 | the loops over registry and needs decide whether a new database is attested |
| ObservedOutcomes.RetirementExactly | cmd/baha/app_apply_result.go:159-170 | a pure retirement is claimed exactly if containers were measured before and none after |
| ObservedOutcomes.TransitionExactly | cmd/baha/app_apply_result.go:335-392 | a start, a stop or a replacement is claimed exactly on these measurements and a BaseHarbor-owned registry entry |
| ObservedOutcomes.NewDatabaseExactly | cmd/baha/app_apply_result.go:214-274 | a new database is claimed exactly on an absent-to-running transition, an empty and complete inventory by a registered consumer, an accepted owner and needs that this one query answers |
| ObservedOutcomes.ReportedExactly | cmd/baha/app_apply_result.go:152-181 | when an impact is reported as applied, and when as pending |
| ObservedOutcomes.ClaimsRestOnMeasuredTransitions | cmd/baha/app_apply_result.go:335-392 | a claim of success brought up an instance that was measured and not running, or took one down from present to absent |
| ObservedOutcomes.ClaimsAreRegistered | cmd/baha/app_apply_result.go:302-329 | except for a pure retirement, a claim repeats the first registry entry of its instance that BaseHarbor owns; its owner is that entry's exactly if the fact is not ancillary or names the same |
| ObservedOutcomes.AncillaryOwnerIsNotTheEntrys | cmd/baha/app_apply_result.go:310-316 | a claim about an ancillary instance whose owner is not the registry's |
| ObservedOutcomes.ReportsAreTruthful | cmd/baha/app_apply_result.go:152-181 | in every report each claim rests on a registered and measured transition, every other outcome is a pending update of a running instance, a claimed replacement names two instances, and no two claims contradict each other |
| ObservedOutcomes.NothingChangedNothingClaimed | cmd/baha/app_apply_result.go:152-181 | equal facts before and after: the report holds no applied outcome and only update impacts appear in it, for any plan and registry |
| ObservedOutcomes.ClaimsNeverContradict | cmd/baha/app_apply_result.go:152-181 | no run claims of one instance that it came up and that it went down |
| ObservedOutcomes.StopIsStartReversed | cmd/baha/app_apply_result.go:364-377 | a stop is attested exactly if the reversed observations attest the start of an instance measured stopped |
| ObservedOutcomes.ReportsAreLocal | cmd/baha/app_apply_result.go:159-179 | facts of instances that a plan does not name do not matter for its report |
| ObservedOutcomes.NothingIsCopiedFromTheProposal | cmd/baha/app_apply_result.go:331-334 | claims about impacts with the same operation, instances and number of needs are equal whatever else was proposed |
| ObservedOutcomes.SqlClaimNamesItsConsumerExactly | cmd/baha/app_apply_result.go:229-258 | the claimed owner is the application of the entry that matched the measured consumer exactly if the first owned entry is of the same application; for an ancillary fact, exactly if that entry is application-scoped and the fact refers to this application |
| ObservedOutcomes.SqlClaimHasAMatch | cmd/baha/app_apply_result.go:229-242 | every attested database has an entry that matched its measured consumer |
| ObservedOutcomes.SqlClaimNamesItsConsumer | cmd/baha/app_apply_result.go:231-258 | with the distinct ids of a loaded registry the first owned entry is the one that matches the consumer, and every need is answered by its query |
| ObservedOutcomes.RepeatedIdMayNameAnotherOwner | internal/capability/registry.go:400-407 | why a repeated id must be refused on loading: the claim could name the Target instead |
| LeaseAllocator.CommonNameExactly | scripts/pr-runner-isolation.py:103-125 | two lanes own a common object name exactly if their identities have the same first 20 digits |
| LeaseAllocator.OwnedNameExactly | scripts/pr-runner-isolation.py:177-180 | the test of a name finds exactly the canonical name of the lane and every name that continues it after a dash |
| LeaseAllocator.DirectoriesDoNotSeparateNames | scripts/pr-runner-isolation.py:103-125 | two lanes with different directories that own a common object name |
| LeaseAllocator.StepKeepsInv | scripts/pr-runner-isolation.py:92-193 | every action of every process keeps the invariant |
| LeaseAllocator.RunKeepsInv | scripts/pr-runner-isolation.py:92-193 | the invariant over all interleavings of prepare, failing prepare and finalize |
| LeaseAllocator.CapacityIsRespected | scripts/pr-runner-isolation.py:107-114 | the number of lanes never exceeds the capacity |
| LeaseAllocator.ReleasedOnlyWhenEmpty | scripts/pr-runner-isolation.py:167-193 | a lane is released only when no container, network or volume of its runtime is named `bh-` and the first 20 digits, or so with a dash and anything after it, although each kind is listed at a different time |
| LeaseAllocator.InventoryExactly | scripts/pr-runner-isolation.py:169-182 | an inventory fails exactly if the listing fails or names an object of the lane |
| LeaseAllocator.FailsExactly | scripts/pr-runner-isolation.py:107-193 | the cases in which an action fails, all of them |
| LeaseAllocator.RemoverFoundOwnLease | scripts/pr-runner-isolation.py:143-153 | in every run, whoever is about to remove a lane or has released one found inside the lock a lease of its own identity, run and attempt |
| LeaseAllocator.UndisturbedPrepareSucceeds | scripts/pr-runner-isolation.py:103-131 | with a slot free and no lane of its name, an undisturbed `prepare` makes its lane with its lease and touches nothing else |
| LeaseAllocator.UndisturbedFinalizeReleases | scripts/pr-runner-isolation.py:156-193 | with its own lease in place and no object left, an undisturbed finalizer releases the lane and no other |
| LeaseAllocator.RemovesExactly | scripts/pr-runner-isolation.py:132-134 | a removal takes the lane away, an interrupted one leaves it without its lease |
| LeaseAllocator.OnlyOwnLanesAreDamaged | scripts/pr-runner-isolation.py:132-134 | only an abort or a release damages a directory, only at its own name; a release the very one it rechecked, an abort the very one it made exactly as long as it has not been evicted |
| LeaseAllocator.RunKeepsMakers | scripts/pr-runner-isolation.py:113-134 | in every run a lane stands at the name of its maker, who is past its creation and not evicted |
| LeaseAllocator.AbortHitsForeignLaneExactly | scripts/pr-runner-isolation.py:132-134 | an aborting prepare hits its own lane exactly if it has not been evicted |
| LeaseAllocator.EvictedMeansLaneLost | scripts/pr-runner-isolation.py:132-134 | evicted is exactly who lost the lane it made to a removal by another process, somewhere in the run |
| LeaseAllocator.ForeignAbortExactly | scripts/pr-runner-isolation.py:132-134 | an abort hits the lane of another process exactly if another process had removed its own |
| LeaseAllocator.SequencedAbortsRemoveTheirOwn | scripts/pr-runner-isolation.py:115-134 | if no identity is finalized while its prepare is unfinished, an abort removes only what it made |
| LeaseAllocator.LateAbortRemovesForeignLane | scripts/pr-runner-isolation.py:132-134 | without that order a concrete run exposes a lane of another process to a late abort |
| StrictWire.Decoder.StrictWireValue | contracts/targetaccess_wire.go:170-222 | consumes exactly the tokens of one strict value within the remaining depth and returns its meaning, or refuses |
| StrictWire.Decoder.ReadObject | contracts/targetaccess_wire.go:184-204 | the member loop builds the map that the printed members mean and refuses a repeated name |
| StrictWire.Decoder.ReadArray | contracts/targetaccess_wire.go:206-218 | the element loop builds the list in order |
| StrictWire.ReadSingle | contracts/targetaccess_wire.go:56-63 | accepts exactly the printed forms of single values of depth at most 64 with unique names, and returns their meaning |
| StrictWire.ReadPrinted | contracts/targetaccess_wire.go:170-222 | reading a printed document followed by anything accepts it exactly if it is strict and leaves the rest |
| StrictWire.AcceptedExactly | contracts/targetaccess_wire.go:170-222 | a stream is accepted exactly if it starts with the printed form of a strict document |
| StrictWire.PrintIsUniquelyReadable | contracts/targetaccess_wire.go:170-222 | no two different strict documents start the same stream |
| JsonPointer.TwoPassesDecode | contracts/registry.go:121 | replacing `~1` and then `~0` equals a one-pass decoding, on every string |
| JsonPointer.DecodeEscape | contracts/registry.go:121 | decoding undoes escaping, and an escaped token has no slash |
| JsonPointer.IndexAcceptedExactly | contracts/registry.go:130-133 | an array index is accepted exactly as the canonical decimal form of a position |
| JsonPointer.JsonPointerExists | contracts/registry.go:113-140 | true exactly if the pointer is empty or starts with a slash and its tokens walk to a value |
| JsonPointer.TokensOfPointer | contracts/registry.go:117-121 | splitting and decoding undoes escaping and joining, for every list of tokens |
| JsonPointer.PrintedPointerResolves | contracts/registry.go:113-140 | the pointer printed for a list of tokens is accepted exactly if they walk to a node (sections 3 and 4 of RFC 6901) |
| JsonPointer.ReferencesCheckedEverywhere | contracts/registry.go:74-111 | a schema passes exactly if every `$ref` member at any depth is a text that resolves to a known document and a fragment it has, and every `$id` member is the document's own |
| AgentsSection.Revise | cmd/baha/app_agents.go:38-60 | computes the updated content or refuses ambiguous markers |
| AgentsSection.UpdateSucceedsExactly | cmd/baha/app_agents.go:38-57 | succeeds exactly on content without markers and on content with one start marker before one end marker |
| AgentsSection.FirstUpdateExactly | cmd/baha/app_agents.go:44-52 | a first update appends the section and a newline, after an empty line if the content has anything but white space |
| AgentsSection.UpdateKeepsOutside | cmd/baha/app_agents.go:46-60 | the text before and after the section is kept byte for byte and holds no marker |
| AgentsSection.NoStraddling | cmd/baha/app_agents.go:44-60 | no marker straddles the borders of a spliced section |
| AgentsSection.UpdateIsStable | cmd/baha/app_agents.go:31-73 | afterwards there is exactly one marker of each kind, and a second update changes nothing |
| AgentsSection.AgentsFile.Ensure | cmd/baha/app_agents.go:31-73 | reports a change exactly if the file was rewritten; a refusal or an unchanged result writes nothing |
| AgentsSection.AgentsFile.EnsureTwice | cmd/baha/app_agents.go:62-64 | the first of two runs leaves exactly the updated content or fails on the markers; the second reports no change, or fails alike |
| AgentsSection.MarkersAreWellShaped | cmd/baha/app_agents.go:11-14 | the shipped markers have the shape the proofs rely on |
| AppNames.SlugifyAppName | cmd/baha/app_init_detection.go:215-235 | the loop with its pending dash computes the words of the text joined by dashes and cut; always a name or empty, and all of that text or its first 62 or 63 characters |
| AppNames.SlugIsName | cmd/baha/app_init_detection.go:215-235 | a slug is a name of at most 63 characters, or empty, which it is exactly if the text has no letter or digit |
| AppNames.NamesExactly | cmd/baha/app_init_detection.go:215-235 | the names: at most 63 lower-case letters and digits with single dashes between them |
| AppNames.SlugIsEmptyExactly | cmd/baha/app_init_detection.go:215-235 | no letter and no digit, once lowered, exactly if nothing is left |
| AppNames.TrimExactly | cmd/baha/app_init_detection.go:216-231 | trimming takes off all such characters at both ends and no other |
| AppNames.SlugOfName | cmd/baha/app_init_detection.go:215-235 | names are their own slugs |
| AppNames.SlugsAreTheNames | cmd/baha/app_init_detection.go:215-235 | the slugs are exactly the names; slugging is idempotent |
| AppNames.DashedIsSpaced | cmd/baha/app_init_detection.go:217-230 | the words-and-dashes grammar forces the character-level shape |
| AppNames.SpacedIsDashed | cmd/baha/app_init_detection.go:217-230 | and conversely |
| AppNames.DetectedLogicalInstanceName | cmd/baha/app_init_detection.go:237-258 | the slug without the prefixes and then the suffixes of its kind, in their order; for every kind a name and part of the service's slug; empty only if that slug is |
| AppNames.TrimsExactly | cmd/baha/app_init_detection.go:248-253 | trimming takes off exactly the given end, if it is there |
| DurableNames.Suggest | cmd/baha/app_init_durable_instances.go:20-29 | the default if free, else the free ordinal name of least ordinal; the search ends |
| DurableNames.FewAreTaken | cmd/baha/app_init_durable_instances.go:23-28 | a cache of k names takes at most the first k ordinal names |
| DurableNames.SuggestionIsDetermined | cmd/baha/app_init_durable_instances.go:20-29 | there is only one name to suggest |
| DurableNames.UniqueSorted | cmd/baha/app_init_wizard.go:330-346 | the trimmed non-blank values, each once, in order |
| DurableNames.PromptServiceInstances | cmd/baha/app_init_prompts.go:246-268 | an answer is invalid exactly if some part has no slug; otherwise it yields nothing for the default or its slugs, each once, in order |
| DurableNames.LineExactly | cmd/baha/app_init_prompts.go:247-255 | an answer is trimmed, a blank one stands for the suggestion |
| DurableNames.InvalidExactly | cmd/baha/app_init_prompts.go:255-267 | an answer is invalid exactly if it is neither empty nor the default and one of its comma-separated parts has no letter and no digit |
| DurableNames.ListedNamesExactly | cmd/baha/app_init_prompts.go:255-268 | names separated by commas ask for exactly these names |
| DurableNames.PromptDurable | cmd/baha/app_init_durable_instances.go:9-50 | the dialogue ends with the first answer that is invalid or meets no cache name; returned names never meet the cache |
| DurableNames.BlankAnswerExactly | cmd/baha/app_init_durable_instances.go:30-48 | accepting the suggestion is always valid; it ends the dialogue exactly if the suggestion is the default or no cache uses its slug |
| DurableNames.BlankAnswerSettles | cmd/baha/app_init_durable_instances.go:30-48 | so it ends the dialogue with the suggested name whenever the cache has fewer than ten to the 57 names |
| BackupRecovery.Application.StopWriters | cmd/baha/app_backup_restore.go:156-181 | stops in order up to the first stop that fails and logs what each answered; succeeds exactly if all do; the targets are the stops that were tried, the workload only if it reported something |
| BackupRecovery.HaltedIsLowered | cmd/baha/app_backup_restore.go:148-181 | the targets cover every process that may have stopped exactly if the workload stop was not reached, reported something or touched nothing |
| BackupRecovery.Application.RestartAfterBackup | cmd/baha/app_backup_recovery.go:12-33 | starts broker, workload, exposure, each only after those before it; succeeds exactly if every wanted start does, and then everything wanted runs |
| BackupRecovery.Application.Backup | cmd/baha/app_backup_restore.go:120-142 | a nil result exactly if every stop, the capture and the restart succeeded; says what runs at the end; after a successful restart, even after cancellation, everything that ran before runs exactly if the workload stop accounted for what it touched; foreign processes are never touched |
| BackupRecovery.UnreportedStopIsUnaccounted | internal/runtime/service_stop.go:146-159 | a workload stop that fails after stopping one process without reporting it is not accounted for |
| BackupRecovery.Restored | cmd/baha/app_backup_restore.go:120-181 | a successful restart of the targets brings back what the stops took down exactly if the targets cover it |
| BackupRecovery.CaptureSeesStoppedWriters | cmd/baha/app_backup_restore.go:120-136 | the capture happens exactly if every stop the application needs succeeds, after all of them and before any start |
| BackupRecovery.RestartIsCalledOnce | cmd/baha/app_backup_restore.go:138-164 | once a stop was tried the restart is called exactly once, detached from the caller, and starts come only after it |
| BackupRecovery.StartsReverseStops | cmd/baha/app_backup_recovery.go:12-33 | on success the starts reverse the stops, save for a workload that had nothing to stop |
| RequirementComparison.SameCounts | cmd/baha/app_edit_load.go:81-96 | counting up and down decides equality of multisets |
| RequirementComparison.LoadRequirements | cmd/baha/app_edit_load.go:68-121 | succeeds exactly if secrets match the contract and the requirements agree as multisets; at most the managed secret is added |
| RequirementComparison.SortedRequirementsDecideEquality | cmd/baha/app_edit_apply.go:196-213 | comparing sorted requirements decides the same relation, whatever arrangement the sort picks |
| RequirementComparison.SortedPreferencesWithDistinctKeys | cmd/baha/app_edit_apply.go:215-227 | with distinct keys comparing sorted preferences decides equality of multisets |
| RequirementComparison.PreferenceSortIsDeterminedExactly | cmd/baha/app_edit_apply.go:215-227 | the sort of a list is determined exactly if its keys are distinct |
| RequirementComparison.SwapTied | cmd/baha/app_edit_apply.go:215-227 | exchanging two preferences with one key leaves the list sorted |
| Sorting.SortedArrangementIsUnique | cmd/baha/app_edit_apply.go:204-227 | two sorted arrangements of the same elements are equal when no two different elements tie |

## Left out

- Git and the file system: subprocesses, symlinks, file modes, temporary names, tokens and authentication headers. Kept are commits, trees, ancestry, references, and atomic create, rename and remove.
- ReceiptPublication.Step: the checks, the reset and the fresh commit of one attempt are one local action of that writer, with a fault before or after the reset; a crash that leaves an uncommitted file is a dirty checkout.
- ReceiptPublication.CheckCommitRecord: JSON decoding is replaced by the canonical form it is compared with in the end; pull request numbers are unbounded.
- `commit_record`: the query of the pull request, its author and its base.
- ReviewedMergeChain.Trusted: shallow or replaced histories, and output of git in other formats.
- The planner's reviewed identifiers and file lists, the checks of repository content inside single branches, the exact `validated_diff` messages and the text of reasons are parameters of `GatePlan`; what is modelled is how branches combine.
- SelectedGates.Select: the placeholder entry "not-required" of an empty matrix, and the YAML of the workflows.
- SelectedGates.Verify: the errors' text, and the order in which jobs are visited.
- DiffPlanning.Assess: one repository answers all walks, and every candidate is walked although the planner walks only for a matching file list; a walk changes nothing. Repository and branch are compared in advance, and a second resolution that aborts counts as different. Within a plan, `GatePlan.Policy.qualifiedHeadTrusted` stays a flag: the path it belongs to is never resolved.
- PrDiffBase.ParseFields: digits outside ASCII in a similarity score.
- LeaseAllocator: validation of the request and admission of the runner, the subdirectories of a lane, and runtimes that answer late; that a lane's own objects only shrink while it is finalized is a rule of `Step`.
- ApplyLifecycle.Target.Apply: the collection of evidence around the run, prompts, secrets, and the inner order of provider set-up inside a step; each step has an arbitrary outcome and may create any of the providers whose owners are retained by then.
- ApplyLifecycle.Target.RetireReleased: which containers, volumes and certificates a retirement touches, and which providers that nobody needs (unbound standalone ones, idle services of the control plane) go besides the released ones; any may.
- ApplyLifecycle.Target.ApplyMany: one record is shared by all applications, where the program keeps one for each.
- EditSource.Step: the fresh proposal is compared as one finding (unchanged or not); a store-managed copy is synchronized in one action; preferences are compared by value.
- AuthorizationSurface: numbers are integers, and the encoding of a plan to JSON and back is not part of this model.
- ObservedOutcomes: wording of evidence, memory and dependency facts, and how facts are measured.
- JsonPointer.ValidateReferences: URL parsing and resolution are one function parameter.
- StrictWire: lexical decoding, including the commas and colons the token reader checks, is part of the token stream, where any lexical error is a `Fault` token; schemas, times and encodings that are checked after the strict read are left out, as is `boundedWireArgv`.
- AgentsSection.Update: the prose between the markers is a parameter without angle brackets, as the shipped prose is.
- AppNames.SlugifyAppName: lower-casing is character by character, with the Unicode tables as a parameter whose needed facts are `AppNames.Sane`.
- DurableNames.PromptDurable: what is printed to the user; the end of the input ends the dialogue.
- BackupRecovery.Application.StopWriters: that a workload stop reports truthfully is not assumed; `World.reported` is arbitrary, and what depends on it is stated as a condition. Exposure and broker are targets once their stop is tried.
- BackupRecovery: archive contents, passwords, preflight details and the three-minute limits.
- RequirementComparison: the resolution of a footprint; `appEditProjectRequirements` and `uniquePortEvidence` depend on the manifest format and are not part of this model.
- AtomicPlan.RemainingPlan: reading the requirements file and printing JSON.
