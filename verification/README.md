# FlowCrew, verified

FlowCrew runs plans of agent stages, builds and publishes its own runtime, prepares
worktrees for tasks and lands finished ones. This project models the parts of it whose
guarantees go beyond one branch or one function, and proves those guarantees.

The environment is always an input: a file system is a tree or a map of paths and links, a
publication is a sequence of atomic steps that may stop anywhere, Git, clocks, timers and
message arrivals answer or fire in any way, and a hash is any function that does not collide
on the texts at hand. Code that changes state step by step is a class or a method proved
against a specification function or an abstract predicate; the laws are lemmas about those.

| modules | component |
|---|---|
| `BuildTrees`, `BuildPublication` | `publishBuildOutputs`: two live trees replaced under one commit record |
| `RuntimeGenerations` | `publishRuntimeGeneration`: immutable generations behind one atomic link |
| `BuildIdentity` | the texts hashed into a build's identity |
| `ArtifactPaths`, `ArtifactAdmission`, `ArtifactSchedules` | the static checker of declared artifacts, and what it guarantees over all schedules |
| `StaticPaths`, `EnvAliases`, `MissingEnv` | the static analyser of test conditions and paths |
| `WorktreeFiles`, `RelativeLinks`, `InputReconciliation`, `LinkedWorktree`, `CopyEstimate` | mirroring declared inputs into a worktree, the relative links it writes, and the size estimate made before |
| `CanonicalJson` | canonical JSON text |
| `ReadyAwareWorker`, `AttemptDeadline` | the test worker wrapper; attempt deadlines and retry budgets |
| `PorcelainStatus`, `LandInventory`, `Landing` | reading Git's status, grading what a worktree holds, removing it |
| `LogTail`, `RunFeed`, `FollowFeed` | the event feed: reading the end of a log, following one run, following all |
| `CommandActivity`, `AppendBoundary` | the command tracker, torn appends |
| `Sequences`, `Splitting`, `Paths`, `PathText`, `Wrappers` | shared: sorting and filtering, splitting, paths, options |

A claim about every interruption is made over a ghost field `history`, to which every atomic
step of a publication appends the state it leaves.

Where a promise does not hold of the code for all inputs, the project keeps the code as it
is, proves exactly when it holds, and shows an input for which it does not:

- A runtime root that is not spelled as its real path loses the generation that was running
  (`RuntimeGenerations.PublishOnAliasedRoot`, `RuntimeGenerations.RunningGenerationIsLost`).
- A condition is answered wrongly in some environment exactly if a computed key, or a type that a
  larger expression may have, decides it (`MissingEnv.WhenMissingIsExact`); and of two patterns
  that bind one local name to different keys only the last is remembered
  (`EnvAliases.PatternsAreKept`).
- A recreated link names its counterpart exactly if going up, as often as its relative text does,
  reaches one directory from the parent as it is spelled and from the parent as it is placed
  (`InputReconciliation.Reconciliation.LinkLeadsRight`); below a directory reached through a link it
  can lead nowhere, and then stands in the way of the entry at its place
  (`LinkedWorktree.RunWithLink`).
- A link-free input that contains the target is mirrored in it by no file system, unless the target
  is the project: what is created in the target is below the input again. The laws of reconciliation
  hold for inputs apart from the target
  (`InputReconciliation.Reconciliation.NeverMirroredInside`).
- The copy estimate exceeds what is copied exactly when a link inside the target makes two
  destinations one place (`CopyEstimate.EstimateIsExact`).
- Two ways of writing one object have different canonical texts exactly if two of its keys tie in
  the comparison of the locale, as a composed and a decomposed letter do
  (`CanonicalJson.CanonicalUnlessTied`, `CanonicalJson.EquivalentKeysReadDifferently`); and an
  array element that is undefined has the text of one that is null
  (`CanonicalJson.UndefinedElementReadsAsNull`).
- The runner can see a `started` the delegate has not sent, exactly while the first real one is
  awaited (`ReadyAwareWorker.SyntheticStartedComesFirst`); a second `start` lets the first deadline
  fail a worker that is ready (`ReadyAwareWorker.SecondStartIsPossible`), which can happen exactly
  while a deadline is armed (`ReadyAwareWorker.ReadyFailsIfDeadlineIsLeft`); after the deadline only
  run and collect requests are held back; and a stopped worker still passes on the errors and exits
  of its delegate, and nothing else exactly if no timer is left armed, as after a second `start` one
  is (`ReadyAwareWorker.StoppedPassesTroubleOnly`, `ReadyAwareWorker.SecondStartOutlivesStop`).
- A batch of the event feed keeps a run's log order exactly when the run's own times never go
  back in it (`FollowFeed.BatchKeepsLogOrder`), and an event logged again word for word hides the
  events in between (`RunFeed.RepeatedEventHides`).
- A command whose first completion is reported before its start stays active until the stream
  closes (`CommandActivity.CallbacksAreOnce`).

## Model

| member | source | states |
|---|---|---|
| `BuildPublication.BuildOutputs.Publish` | src/build-manifest.ts:407-431 | in every state an interruption can leave, a manifest in dist attests both roots exactly, and every path of unchanged kind reads as its whole old or whole new entry; it succeeds exactly if the sources can be copied, the manifest describes the copy, no directory is in the place of the manifest and, for a payload with a UI, no file is in the place of `ui`; then both roots equal the payload, and a payload the manifest does not describe changes nothing |
| `BuildPublication.BuildOutputs.PublishFiles` | src/build-manifest.ts:434-451 | every instant is safe: nothing but old or new entries below the destination, no path that keeps its kind ever missing, nothing outside touched, and no staged file lost; it completes exactly if the directories above the destination can be made, and then the live tree equals the staged one |
| `BuildPublication.BuildOutputs.Replace` | src/build-manifest.ts:413-425 | the order withdraw, UI, dist, commit keeps every intermediate state truthful, and reaches the commit exactly if the live tree leaves room for the payload |
| `BuildPublication.BuildOutputs.PublishPayload` | src/build-manifest.ts:411-431 | a payload that fails its check publishes nothing, any other is published exactly if there is room for it, and the private copy is cleared whatever happened |
| `BuildPublication.CommitIsTrue` | src/build-manifest.ts:425 | the last rename installs a record that attests what both roots hold by then |
| `BuildPublication.SafeLifts` | src/build-manifest.ts:443-449 | a safe instant of publishing one member is a safe instant of publishing its directory |
| `BuildPublication.PublicationComplete` | src/build-manifest.ts:440-450 | dropping the stale names and publishing the new ones leaves exactly the new tree |
| `BuildTrees.AttestationReadsOnlyTheRoots` | src/build-manifest.ts:109-138 | whether a manifest attests a tree depends only on the two roots, without the manifest itself |
| `RuntimeGenerations.RuntimeRoot.Publish` | src/build-manifest.ts:476-530 | from a converted root, in every intermediate state both public links follow one installed generation, the old or the new, and installed contents never change; it refuses exactly a generation installed with other contents, leaves alone exactly one recognised as selected, and publishes otherwise; the generation selected on entry then survives if and only if the cache directory is spelled as its real path or that generation is republished |
| `RuntimeGenerations.RecognisedIfCanonical` | src/build-manifest.ts:486-523 | comparing the path of a generation with the real path of dist recognises the selected generation exactly if the cache directory is spelled as its real path, and no other ever |
| `RuntimeGenerations.PublishOnAliasedRoot` | src/build-manifest.ts:476-530 | on any converted root whose cache directory is spelled otherwise than as its real path, publishing a new generation leaves only that one: the running one is gone |
| `RuntimeGenerations.RunningGenerationIsLost` | src/build-manifest.ts:476-530 | such a root, whose running generation is gone after a publication |
| `RuntimeGenerations.RuntimeRoot.RemoveOthers` | src/build-manifest.ts:521-524 | cleanup keeps the new generation and the one recognised as selected, and nothing else |
| `BuildIdentity.RecordsRoundTrip` | src/build-manifest.ts:69-76 | the length-prefixed encoding of any list of well-formed records decodes back to the list |
| `BuildIdentity.FeedRecords` | src/build-manifest.ts:69-76 | what the loop feeds the hash is that encoding |
| `BuildIdentity.GenerationIsInjective` | src/build-manifest.ts:245-251 | two manifests with one generation agree on inputs, outputs, UI outputs, UI presence and artifacts, present or absent |
| `ArtifactPaths.OverlapIsIntersection` | src/artifact-declarations.ts:199 | the text test for overlapping outputs holds exactly if the two share a location |
| `ArtifactPaths.CoveredReadsAreOwned` | src/artifact-declarations.ts:100-109 | a read bound to an output reads only locations the output owns |
| `ArtifactPaths.LiteralPathsAreConfined` | src/artifact-location.ts:10-18 | a literal path resolved below a root stays below it |
| `ArtifactAdmission.Ancestor` | src/artifact-declarations.ts:167-171 | the search with one shared visited set finds exactly the reachable dependencies, on graphs with cycles too |
| `ArtifactAdmission.Parse` | src/artifact-declarations.ts:35-63 | a contract is accepted exactly if its names and places are unique and its groups are disjoint sets of unconditional outputs |
| `ArtifactAdmission.Findings` | src/artifact-declarations.ts:160-224 | the finding list is empty exactly if every declaration is admissible |
| `ArtifactSchedules.AdmissionIsSound` | src/artifact-declarations.ts:160-224 | with an empty finding list, in every state of every run no two running stages own one run location, every stage read follows its settled producer, and every condition is decided as far as an exit code was recorded |
| `ArtifactSchedules.OwnershipIsExact` | src/artifact-declarations.ts:197-202 | on a plan without cycles, the ownership rule refuses exactly the plans that have a run in which two owners meet |
| `ArtifactSchedules.CanSettle` | src/artifact-declarations.ts:91-99 | any set of stages closed under dependencies can settle before another stage starts |
| `StaticPaths.StaticPathEvaluator.Evaluate` | spec/purity.ts:922-975 | after any earlier queries, evaluation ends and gives the value in the least solution of the binding equations, and undefined exactly where that is undefined |
| `StaticPaths.StaticPathEvaluator.EvaluateDeclaration` | spec/purity.ts:906-920 | what is remembered as undefined inside a cycle is never wrong |
| `StaticPaths.SolutionIsFixed` | spec/purity.ts:906-975 | as many rounds as there are declarations solve the equations |
| `StaticPaths.SolutionIsLeast` | spec/purity.ts:906-975 | every solution of the equations extends that one |
| `StaticPaths.CyclesAreUnknown` | spec/purity.ts:908 | a declaration that needs itself has no value |
| `EnvAliases.Closure` | spec/purity.ts:227-265 | the loop ends, and its result is the least set of aliases closed under the declarations |
| `EnvAliases.ClosureIsTracing` | spec/purity.ts:253-265 | a name has a key exactly if its value can be traced to a read of the key |
| `MissingEnv.WhenMissingIsSound` | spec/purity.ts:342-391 | whenever the analysis answers a condition, and neither a computed key nor a type that a larger expression may have decides it, the answer is the truth value in every environment without the keys it names |
| `MissingEnv.WhenMissingIsExact` | spec/purity.ts:342-391 | any answer is right in every such environment if and only if no computed key and no possible type of a larger expression would change it |
| `MissingEnv.SkipIsExact` | spec/purity.ts:405-414 | for both modifiers, an answer is given exactly if the test is skipped |
| `MissingEnv.TypeofLargerExpressionMisleads` | spec/purity.ts:297-300 | the type of a larger expression is taken for the type of the read inside it: one such condition, answered wrongly |
| `MissingEnv.ReusedNamesMislead` | spec/purity.ts:244 | of two patterns with one local name only the last key is remembered: a program of this kind |
| `EnvAliases.PatternsAreKept` | spec/purity.ts:234-247 | each pattern's key is remembered for its name if and only if no two patterns bind one name to different keys |
| `InputReconciliation.ReconcileTwice` | src/cli-ship-setup.ts:900-1125 | for link-free inputs apart from the target, a run without blockers leaves each of them mirrored inside the target, and a second run creates nothing; everything created lies inside the target and nothing else changes; and in a target without links the run has no blockers if and only if no entry on the way to an input, at it or below it differs from the project's |
| `InputReconciliation.Reconciliation.NeverMirroredInside` | src/cli-ship-setup.ts:950-1028 | a link-free input that contains the target, wherever that is spelled, is mirrored in it if and only if the target is the project itself |
| `InputReconciliation.Reconciliation.ClearIsStable` | src/cli-ship-setup.ts:927-1055 | what one input copies or creates never stands in the way of another, however they overlap |
| `InputReconciliation.Reconciliation.ReconcileInputs` | src/cli-ship-setup.ts:1059-1124 | whatever links there are, the run ends, extends the file system only inside the target, and accounts once for every file and link created, each below a declared input and with the bytes of its source, or the relative text from the spelled path to its counterpart, and for every directory, the counterpart of one in the project; it does nothing and reports nothing if and only if every name walked has its counterpart already; a missing source makes a blocker |
| `InputReconciliation.Reconciliation.ReconcileInput` | src/cli-ship-setup.ts:1065-1124 | whatever links there are, an input of which the target has nothing adds no blocker if its place is free and each name walked in it leads to something inside it and no directory to itself, and only if it does so in the end |
| `InputReconciliation.Reconciliation.ReconcileDirectory` | src/cli-ship-setup.ts:950-1057 | the recursion ends because the canonical directories being walked grow within a finite set, and without a blocker every name of the source directory has an entry in the target, links or not; a directory that was empty is filled without a blocker if the source is sound, each entry at its own name |
| `InputReconciliation.Reconciliation.CopyMissingFile` | src/cli-ship-setup.ts:927-948 | exactly if there is no entry and its directory can be made, the target has a new file with the bytes of the source; otherwise a blocker is all that comes of it |
| `InputReconciliation.Reconciliation.RecreateLink` | src/cli-ship-setup.ts:981-996 | exactly if there is no entry and its directory can be made, the target has a new link, with the relative text that is computed on the spelled path, as it reads from where the link is; otherwise a blocker is all that comes of it |
| `InputReconciliation.Reconciliation.LinkLeadsRight` | src/cli-ship-setup.ts:988-991 | what a recreated link names is its counterpart, looked up in the same directory, if and only if going up reaches one directory from the spelled and from the physical parent; then it leads, however the target grows, where the counterpart leads, and otherwise, without links on the way down, to another place |
| `RelativeLinks.TextLeadsRight` | src/cli-ship-setup.ts:989-990 | the same law for any relative text computed on one spelling of a directory and read in the directory |
| `LinkedWorktree.RunWithLink` | src/cli-ship-setup.ts:981-996 | a link computed for a path through a committed link, which leads nowhere and makes a blocker of the entry it takes the place of |
| `InputReconciliation.Reconciliation.CreateTargetDirectory` | src/cli-ship-setup.ts:916-926 | directories are made exactly if what exists of the path ends with a directory really inside the target; otherwise nothing changes |
| `InputReconciliation.Reconciliation.ProgressComposes` | src/cli-ship-setup.ts:966-1055 | two steps that each account for what they create account for it together |
| `WorktreeFiles.RealIsStable` | src/cli-ship-setup.ts:912-947 | what a path resolved to stays, however the target grows |
| `CopyEstimate.InputEstimate.Estimate` | src/cli-ship-setup.ts:609-641 | for link-free inputs nothing is refused, and exactly the files without a target entry are counted, each once and at its size |
| `CopyEstimate.EstimateIsABound` | src/cli-ship-setup.ts:606-641 | a run never writes more than was estimated, however inputs overlap and whatever the target has gained since |
| `CopyEstimate.EstimateIsExact` | src/cli-ship-setup.ts:606-641 | on the same state and without blockers, estimate and bytes written are equal if and only if no two counted destinations are one place |
| `CopyEstimate.EstimateAndReconcile` | src/cli-ship-setup.ts:609-641 | both laws for the estimating and the copying code run one after the other, the target having grown in between or not |
| `CopyEstimate.LinkedTargetIsOverestimated` | src/cli-ship-setup.ts:632-634 | a link between two directories of the target makes two destinations one place |
| `CanonicalJson.TextIsCanonical` | src/canonical-json.ts:5-20 | two values, the keys of the first free of ties, have one canonical text if and only if they are the same data, at every depth and whatever the order of members |
| `CanonicalJson.CanonicalUnlessTied` | src/canonical-json.ts:5-20 | all ways of writing down a value's data share its text if and only if no two defined keys of one of its objects tie in the comparison |
| `CanonicalJson.TextDeterminesData` | src/canonical-json.ts:5-20 | values with one text are the same data, ties or not |
| `CanonicalJson.EquivalentKeysReadDifferently` | src/canonical-json.ts:10 | a composed and a decomposed letter as keys, in the two orders of members, give two texts |
| `CanonicalJson.PrintIsPrefixFree` | src/canonical-json.ts:18-20 | the JSON text of a value determines the value, and where it ends |
| `CanonicalJson.CanonicalKeepsData` | src/canonical-json.ts:5-16 | canonical form keeps the data, ties or not |
| `CanonicalJson.CanonicalIsDetermined` | src/canonical-json.ts:5-16 | the same data without ties has one canonical form |
| `CanonicalJson.UndefinedElementReadsAsNull` | src/canonical-json.ts:5-20 | undefined and null as array elements share a text |
| `ReadyAwareWorker.NoWorkBeforeStarted` | vitest.config.ts:109-148 | on every run, as long as no real `started` has been heard from the delegate, no run or collect request has reached it |
| `ReadyAwareWorker.WorkIsKeptInOrder` | vitest.config.ts:109-194 | what was handed over followed by what waits is the work sent with some left out, in order; it is all of it exactly on runs in which no step discards work |
| `ReadyAwareWorker.FailedTakesControlOnly` | vitest.config.ts:125-147 | once the deadline has failed, no work is handed over, and every other message is |
| `ReadyAwareWorker.StartedIsSeenOnce` | vitest.config.ts:109-194 | with one start, the runner has seen at most one `started` for each of the delegate's exactly unless the synthetic one still waits for the first real one, and a ready worker never fails |
| `ReadyAwareWorker.SyntheticStartedComesFirst` | vitest.config.ts:111-122 | a run on which the runner has seen a `started` and the delegate has sent none |
| `ReadyAwareWorker.SecondStartIsPossible` | vitest.config.ts:110-136 | with two starts, a ready worker can fail |
| `ReadyAwareWorker.ReadyFailsIfDeadlineIsLeft` | vitest.config.ts:123-194 | a ready worker can fail without another start if and only if a deadline timer is armed |
| `ReadyAwareWorker.StoppedPassesTroubleOnly` | vitest.config.ts:95-159 | after stop, from any state, exactly the delegate's own errors and exits are still passed on, no message, timeout or startup error, if and only if no timer is armed |
| `ReadyAwareWorker.OrderlyStopIsComplete` | vitest.config.ts:154-159 | after one start at most, stop leaves no timer armed |
| `ReadyAwareWorker.SecondStartOutlivesStop` | vitest.config.ts:110-159 | after a second one, the first deadline outlives stop |
| `ReadyAwareWorker.Worker.HandleDelegateMessage` | vitest.config.ts:161-194 | receiving a delegate message changes fields, timers and traffic exactly as the step the laws of runs are about |
| `ReadyAwareWorker.Worker.SendRequest` | vitest.config.ts:109-148 | sending a request does so too: it is forwarded, queued or dropped by that step |
| `ReadyAwareWorker.Worker.FireDeadline` | vitest.config.ts:123-134 | so does the deadline, which drops what was queued and disarms the timers the fields name |
| `AttemptDeadline.StageWrapUpTiming` | src/attempt-deadline.ts:14-19 | warning, close tolerance and finishing time add up to the hard limit exactly, for every positive safe budget |
| `AttemptDeadline.Controller.FireTimer` | src/attempt-deadline.ts:184-198 | whenever the clock is read, neither signal is given before its point, the recorded time is set once, and a running attempt has exactly one timer pending, with a delay from 1 to 2147483647 |
| `AttemptDeadline.Controller.ObserveSettlement` | src/attempt-deadline.ts:167-171 | an expired attempt is seen without any timer |
| `AttemptDeadline.Controller.Dispose` | src/attempt-deadline.ts:173-175 | a disposed attempt has no timer pending |
| `AttemptDeadline.Controller.FewTimers` | src/attempt-deadline.ts:184-198 | if timers are not early, an attempt sets at most two timers more than the longest delay fits into its limit |
| `AttemptDeadline.RetryDoublesWhatTimedOut` | src/attempt-deadline.ts:256-290 | from a new record or a stored one, and whatever budgets are in effect, the budget in force is twice that of the last timed-out attempt that was retried, and the one at first before; a retry is refused exactly if the double is no safe integer |
| `AttemptDeadline.BudgetDoublesPerTimeout` | src/attempt-deadline.ts:256-290 | where each attempt has the budget prepared for it in effect, that is the initial one doubled once for each retry of a timeout |
| `AttemptDeadline.RetryBudget.Apply` | src/attempt-deadline.ts:256-290 | the transition that mutates the record is the one that law is about, refusals included |
| `PorcelainStatus.PorcelainRoundTrip` | src/cli-land.ts:459-493 | parsing the printed form of any status list gives its tracked changes with their original paths, sorted, and its untracked paths, each once and sorted, whatever characters the paths contain |
| `PorcelainStatus.EntryIsRead` | src/cli-land.ts:465-487 | one printed entry is read back, and nothing of what follows it |
| `PorcelainStatus.ParseGitStatusPorcelain` | src/cli-land.ts:459-493 | the loop computes the reading those laws are about, and refuses where it refuses |
| `LandInventory.GradeInventoryPaths` | src/cli-land.ts:661-752 | every path is in the inventory once, by name or in one regenerable count, per origin and per grade, and exactly the unreadable ones are issues |
| `LandInventory.UnlistedIsRegenerable` | src/cli-land.ts:669-735 | nothing of an origin is listed exactly if all of it is readable, no link, no data, and proven regenerable |
| `LandInventory.EverythingIsCounted` | src/cli-land.ts:710-725 | the two regenerable counts together are the number of regenerable paths |
| `LandInventory.OutputCapture.Finish` | src/cli-land.ts:232-260 | command output is returned whole, or not at all and marked so |
| `Landing.Land.RunLand` | src/cli-land.ts:1143-1398 | removal is requested if and only if every precondition holds; requests stop at the first failure, the ledger is written only after all three passed, and the reported state says how far it got |
| `Landing.Land.RemovalContext` | src/cli-land.ts:965-1021 | no reason is given exactly where a secondary worktree and its branch are proven |
| `Landing.Land.RefusalReasons` | src/cli-land.ts:905-923 | no reason is given exactly for a terminal run, completely inspected, with no ignored path listed and a positive count acknowledged |
| `Landing.StepsStopAtFailure` | src/cli-land.ts:1306-1350 | the requests are a prefix of remove, prune, delete, cut after the first that fails |
| `FollowFeed.Feed.Follow` | src/cli-events.ts:571-586 | over any polls of growing logs, for every run: each matching event up to the last one seen is written exactly once or was skipped by a poll, and what is written after the first batch is exactly the matching events since, in log order, if and only if no matching event was skipped and no batch's times go back; the first batch holds only earlier events |
| `FollowFeed.ExactlyTheMatching` | src/cli-events.ts:332-358 | if the first poll saw the log to its end and what changes between two polls fits into the byte limit and 500 events, no event is logged twice and times do not go back, what is written is exactly the matching events appended since, in log order |
| `FollowFeed.NoRowTwice` | src/cli-events.ts:496-586 | over a whole run of the command, first batch included, no row is written more often than its event is in the log |
| `FollowFeed.BatchKeepsLogOrder` | src/cli-events.ts:504-518 | a batch holds each run's new matching events in time order, and in log order exactly if their times never go back |
| `FollowFeed.EarlierTimeComesFirst` | src/cli-events.ts:517 | a clock set back between two events makes the later one come first |
| `FollowFeed.Feed.EmitEvents` | src/cli-events.ts:496-524 | one poll emits those rows and moves the cursors of the runs it read, and no others |
| `RunFeed.FollowEmitsOnce` | src/cli-events.ts:496-516 | the same account for one run over any polls that read ends of its log, events logged twice included |
| `RunFeed.CoversMissesNothing` | src/cli-events.ts:507-513 | nothing is skipped if and only if every poll that reads anything reads back to what had been seen, and what was seen last is not logged again |
| `RunFeed.RepeatedEventHides` | src/cli-events.ts:508-513 | an event logged again word for word hides what was logged in between |
| `LogTail.TailIsSuffix` | src/cli-events.ts:332-358 | wherever the byte limit cuts, the events read are the last ones of the log, whole |
| `LogTail.WindowCovers` | src/cli-events.ts:332-358 | a window reaches back to what was seen if what was appended fits into both limits |
| `LogTail.NearReaches` | src/cli-events.ts:332-358 | it does so too where the log's last line was still unfinished at the poll before |
| `LogTail.AppendingKeepsEvents` | src/cli-events.ts:352-357 | appending keeps the events read so far if the last line is ended first or was no event yet |
| `CommandActivity.Tracker.Close` | src/command-activity.ts:97-117 | what the tracker ends with depends on the stream and not on how it was cut |
| `CommandActivity.SplitGoesOn` | src/command-activity.ts:97-102 | splitting goes on from the unfinished piece, also between the two characters of a line break |
| `CommandActivity.CallbacksAreOnce` | src/command-activity.ts:119-146 | each identifier gets one started callback, and one completed callback exactly unless its first completion came before its start |
| `CommandActivity.CountsAgree` | src/command-activity.ts:119-146 | completed and active commands together are those started, and no completion is called back before its start |
| `AppendBoundary.RecordFile.AppendTextRecord` | src/append-boundary.ts:10-31 | wherever an append is torn, old bytes stay, and it has left only lines of its own |
| `AppendBoundary.EachRecordIsOneLine` | src/append-boundary.ts:14-27 | over any sequence of appends of one-line records, ended or not, each completed one is exactly one line and each torn one at most one, in order |
| `AppendBoundary.LinesOfAppend` | src/append-boundary.ts:14-21 | no line holds bytes of two records |

## Left out

- Processes, sockets, descriptors and TypeScript, YAML and zod parsing: the model starts from parsed expressions, decoded contracts and replies.
- The engine-owned verdict (`producesEngineOwnedArtifact`), input readiness and physical escapes of `src/artifact-declarations.ts` are inputs of the findings.
- The build lock of `scripts/build.ts`, which is check-then-act: one publisher is assumed, whose cache directory is apart from the live roots.
- BuildPublication: byte counts and the order of records are not part of the inventory; links above the two roots, a link in the place of `ui` among them, and the copying of the payload into the private directory entry by entry, are not modelled.
- RuntimeGenerations: removing one unselected generation is one step, and the random names are taken to be unused.
- BuildIdentity: one `char` is one byte of UTF-8 text.
- ArtifactSchedules: schedules have no retries, though a stage can name one to retry to (src/artifact-declarations.ts:93).
- StaticPaths: identifiers come resolved to their declarations; the two path functions are arbitrary functions.
- MissingEnv: an object or a function is loosely equal only to itself, and parameter defaults are not read.
- InputReconciliation: entries are readable regular files, directories and links; a link is given by the path that its text names from where it lies, which for a recreated link is computed from the text. A missing source is taken to be missing for a reason outside the target.
- InputReconciliation.Reconciliation.ReconcileInputs: for inputs with links it states what was created, where, and that each input and each name of a walked directory has its entry, but not that every entry already there agrees with the source below a link; and when a run has no blockers where the target has a part of an input and links are about.
- InputReconciliation.ReconcileTwice: takes inputs apart from the target. For those that contain it, `NeverMirroredInside` says when a mirror exists at all; those that lie inside it are left out.
- InputReconciliation.Reconciliation.ReconcileDirectory: takes an input apart from the target; inside it, the walk ends only where paths become too long, and paths have no such limit here.
- Worktree creation and rollback (`prepareManagedWorktree`, `rollbackOwnedFailedWorktree`): not part of the model.
- CanonicalJson: numbers are finite and given by their shortest text, lone surrogates are not escaped, and the comparison of keys is any total preorder, with the engine's property order part of it.
- ReadyAwareWorker: timers may fire in any order; a second call of `start`, which would register the handler twice, is not modelled.
- AttemptDeadline: the bounded sleep, the overrun and the snapshot only read the clock.
- PorcelainStatus: the comparison of the locale is any total preorder.
- LandInventory: what the path patterns say of a path, and whether a build output is proven, are inputs; paths proven archived are taken away before.
- Landing: the archive's own copying, the texts of reasons and repairs, and the ledger's contents.
- FollowFeed: selecting the runs, formatting, and a repeated run in one poll; logs are only appended to, and one `char` is one byte of a log.
- CommandActivity: which commands a line reports is an input; the snapshot file and the timestamps.
- Terminal, dashboard and report rendering, credentials, and the regular expressions that recognise prose.
