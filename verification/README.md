# Trawlarr, verified

A Dafny model of the parts of Trawlarr whose failure would be silent or final: the crash-safe
replacement of a media file, the text that convergence rests on, the ffmpeg command compiler and its
no-op gate, path translation for remote nodes, remote leases, the flow walker, the alert pipeline, the
Audio Tracks node and the progress parser.

Verify everything with `dafny verify dfyconfig.toml` (Dafny 4.11).

| file | what it models |
|---|---|
| `FileSystem.dfy` | names, inodes and bytes, with failing calls, other users, and a record of every call |
| `ReplaceOriginal.dfy` | Replace Original File as one worker runs it: stage, trash, swap, roll back, restore |
| `ReplaceWorkers.dfy` | any number of such workers, interleaved call by call |
| `Order.dfy`, `JsonText.dfy`, `CanonicalJson.dfy` | UTF-16 order and sorting, the printed grammar and its parser, the serialiser over object graphs |
| `FlowDefinition.dfy`, `FlowHash.dfy`, `FlowDiff.dfy` | the text a flow is hashed from, that the serialiser gives it, and the diff of two flows |
| `FfmpegCommand.dfy`, `FfmpegCompile.dfy`, `FfmpegArgv.dfy`, `FfmpegNoop.dfy`, `VerifyOutput.dfy` | the command, its compiler, what ffmpeg makes of the result, the no-op gate, and verification |
| `PathMap.dfy` | the path-map validator and longest-prefix translation |
| `Alerts.dfy`, `DaemonAlerts.dfy`, `Delivery.dfy` | the coalescer, the daemon's standing outages, the delivery lanes |
| `FlowWalker.dfy` | the walk over a flow's graph |
| `Lease.dfy` | lease transitions, and what any number of attempts on one file can do |
| `MediaTracks.dfy`, `AudioTracks.dfy` | how a stream is read, and the Audio Tracks node |
| `Progress.dfy` | the progress-stream parser |
| `Wrappers.dfy`, `Text.dfy` | shared result types and text helpers |

Where the code updates state step by step the model is a class or a method with a loop, proved equal to
a specification function, and the promises are lemmas about that function over every run. Hosts,
plugins, disks and other users are nondeterministic. Lemmas are proved by explicit induction, so those
that recurse over data carry `{:induction false}`.

Other users of the filesystem are confined to `FileSystem.Rely`: they leave a worker's own names and
bytes alone, and create nothing at a destination whose reservation it holds.

Where the code does less than its comments promise, the condition is stated exactly, with the input
that fails:

- `packages/engine/src/executor/replace-original.ts:231-260` and `:337-351` say a reservation admits one
  worker. `ReplaceWorkers.SafeExactlyWhen`: so it does where no move falls back on one, or every move
  does and none is ever judged stale; otherwise an installed file can be overwritten.
- `packages/core/src/lease.ts:4-10` says a file is never written by two workers. The claim statement
  reads the row and no attempt, and a hold or a requeue from the command line writes the row over a
  running attempt. `Lease.StrandingIsTheDanger` and `Lease.CarelessnessIsTheDanger` say exactly when a
  second worker can then get in.
- `packages/core/src/ffmpeg-compile.ts:323-333` counts a stream within the type the command gives it,
  and ffmpeg within its own. `FfmpegArgv.TypeIndexNamesItsStream` says exactly when the two agree; cover
  art before a film is where they do not.
- `packages/core/src/flow-diff.ts:49-62` and `:116-121` want no changed hash to show an empty diff.
  `inputs[key]` falls through to `Object.prototype`, so a missing `__proto__` reads as an empty object, and
  a missing key named like an inherited function cannot be compared at all. `FlowDiff.EmptyDiffIsEqualText`
  and `FlowDiff.DiffFlowDefinitions` give the exact conditions, `FlowDiff.ProtoIsNotSeen` the input.
- `packages/engine/src/executor/replace-original.ts:470-517` decides after a failed swap whether the new
  file is in place; with neither source readable it decides by size. `ReplaceOriginal.StrangerReadsAsLanded`
  is the run in which that mistakes another user's file.
- `packages/core/src/path-map.ts:62-78` promises a bijection over mapped paths. `PathMap.RoundTrip` gives
  the one family of paths, with a trailing slash, that does not come back.

## Model

| member | source | states |
|---|---|---|
| `FileSystem.KeptIsRecoverable` | packages/engine/src/executor/replace-original.ts:791-1209 | what a worker holds under its own visible names is enough to recover the original and the replacement |
| `FileSystem.BystandersKept` | packages/engine/src/executor/replace-original.ts:429-467 | while nobody else acts between this worker's calls, a name other than a reservation that is bound to another's inode before the first is bound to it after the last |
| `FileSystem.Fs.Link` | packages/engine/src/executor/replace-original.ts:437-451 | an exclusive link binds the new name to the same inode, or fails with no effect; the call is recorded and leaves the world recoverable |
| `FileSystem.Fs.Rename` | packages/engine/src/executor/replace-original.ts:393-400 | a rename under a reservation, onto a destination found free, moves one binding; the call is recorded and leaves the world recoverable |
| `FileSystem.Fs.OpenExclusive` | packages/engine/src/executor/replace-original.ts:272-283 | creating a reservation succeeds only where there is none, and binds it to a new inode of this worker |
| `ReplaceOriginal.MoveKeeps` | packages/engine/src/executor/replace-original.ts:429-467 | moving a name keeps the original under its own path or in trash and the replacement under some name |
| `ReplaceOriginal.DropKeeps` | packages/engine/src/executor/replace-original.ts:429-467 | removing one of two names of an inode keeps both recoverable |
| `ReplaceOriginal.ReserveDestination` | packages/engine/src/executor/replace-original.ts:262-311 | a reservation won is bound, under the destination's reservation name, to an inode of this worker; winning or losing one changes none of its visible names; whether one is stale is the host's answer |
| `ReplaceOriginal.CreateExclusively` | packages/engine/src/executor/replace-original.ts:352-408 | the file is at the destination under both names after a link, and moved after a rename; the destination was free; on failure no visible name has changed |
| `ReplaceOriginal.MoveExclusively` | packages/engine/src/executor/replace-original.ts:429-467 | on success the file is at a destination that was free, and gone from the source unless a leftover source is tolerated; on failure the source still has it |
| `ReplaceOriginal.MoveToTrash` | packages/engine/src/executor/replace-original.ts:528-565 | on success the original has moved to a trash name that was free; on failure it is at its own path, and at most in trash as well |
| `ReplaceOriginal.TrashName` | packages/engine/src/executor/replace-original.ts:528-565 | every trash name is in the trash directory |
| `ReplaceOriginal.StageReplacement` | packages/engine/src/executor/replace-original.ts:1302-1365 | a staged copy is one new name of this worker's, bound to an inode that holds the new bytes; every other name of its own is as it was |
| `ReplaceOriginal.SwapIntoPlace` | packages/engine/src/executor/replace-original.ts:1384-1559 | with the original safe elsewhere, success means the final path holds the new bytes; failure leaves the original where it was |
| `ReplaceOriginal.SwapLanded` | packages/engine/src/executor/replace-original.ts:470-517 | the answer as the three reads give it, and whether sizes alone decided: exactly when the destination could be read and neither source could, the new file's own path failing though it is still there; otherwise a shared inode did, and the destination is this worker's |
| `ReplaceOriginal.StrangerReadsAsLanded` | packages/engine/src/executor/replace-original.ts:470-517 | the run in which sizes mislead: another user's file of the same size at the final path, with both sources unreadable, reads as installed |
| `ReplaceOriginal.RestoreOriginal` | packages/engine/src/executor/replace-original.ts:1062-1092 | on success the original is at its own path; otherwise no name of this worker has changed |
| `ReplaceOriginal.Preflight` | packages/engine/src/executor/replace-original.ts:830-957 | deciding changes no name of this worker; it goes on only with a non-empty new file, and never onto a third file of its own |
| `ReplaceOriginal.ReplaceOriginalFile` | packages/engine/src/executor/replace-original.ts:791-1209 | for every pattern of failing calls and of other users' calls within `FileSystem.Rely`, and for a crash after any call: the original stays under its own path or in trash, no bystander is touched, output 1 means the final path holds the new content with the original in trash, and output 2 on the original's path means it is there or in trash |
| `ReplaceWorkers.StepIsCourteous` | packages/engine/src/executor/replace-original.ts:262-335 | no call of a worker removes or rebinds a name bound to another worker's file, but the reservation it displaces |
| `ReplaceWorkers.StepKeepsInv` | packages/engine/src/executor/replace-original.ts:352-408 | every call of every worker, crashes included, keeps the invariant, where all moves take one branch and the call displaces no reservation that is held |
| `ReplaceWorkers.EveryOriginalIsReachable` | packages/engine/src/executor/replace-original.ts:1384-1470 | for any number of workers with distinct files, in every such interleaving stopped anywhere, each original is under its own path or in trash |
| `ReplaceWorkers.OneWinnerPerDestination` | packages/engine/src/executor/replace-original.ts:352-408 | in every such interleaving two workers with one destination never both end on output 1 |
| `ReplaceWorkers.NothingIsOverwritten` | packages/engine/src/executor/replace-original.ts:429-467 | in every such interleaving a name bound to a worker's file is neither removed nor rebound by any schedule of the others |
| `ReplaceWorkers.InstalledStays` | packages/engine/src/executor/replace-original.ts:429-467 | a file installed by a worker that ended on output 1 stays installed, whatever of the kind runs afterwards |
| `ReplaceWorkers.SafeExactlyWhen` | packages/engine/src/executor/replace-original.ts:262-408 | any number of workers on any files keep all three promises in every interleaving (no original lost, one winner per destination, an installed file never overwritten) exactly where no move falls back on a reservation, or every move does and no reservation is ever judged stale |
| `ReplaceWorkers.PreludeRuns` | packages/engine/src/executor/replace-original.ts:528-565 | both counterexamples begin at an initial state: two rivals trash their originals, and the destination is still free |
| `ReplaceWorkers.MixedBranchesOverwrite` | packages/engine/src/executor/replace-original.ts:337-351 | from an initial state, nothing reclaimed: one worker links, another holds the reservation and renames over it; both end on output 1 and an installed file is lost |
| `ReplaceWorkers.ReclaimedTwiceOverwrites` | packages/engine/src/executor/replace-original.ts:284-310 | from an initial state, nothing linked: two workers judge one abandoned reservation stale, the second renames away the live one of the first; both end on output 1 and an installed file is lost |
| `JsonText.ParseInvertsPrint` | packages/core/src/canonical-json.ts:36-90 | a parser of the grammar of sections 3 to 7 of RFC 8259 recovers every printed value |
| `JsonText.PrintIsInjective` | packages/core/src/canonical-json.ts:36-90 | two values with one text are one value |
| `CanonicalJson.Serialiser.Inner` | packages/core/src/canonical-json.ts:36-90 | on any finite object graph, cyclic ones included, the serialiser ends with the text of the normal form or the fault, and with the ancestor set exactly as it found it |
| `CanonicalJson.CanonicalJson` | packages/core/src/canonical-json.ts:34 | the text of the sorted, undefined-dropped normal form, or the fault |
| `CanonicalJson.NormalIsInNormalForm` | packages/core/src/canonical-json.ts:60-88 | the normal form has its keys strictly ascending in UTF-16 order, at every depth |
| `CanonicalJson.ParseRecoversNormalForm` | packages/core/src/canonical-json.ts:36-90 | parsing the text of any serialisable value gives its normal form |
| `CanonicalJson.EqualTextsMeanEqualValues` | packages/core/src/canonical-json.ts:36-90 | across two heaps, equal texts mean equal normal forms |
| `CanonicalJson.RefusesExactlyBadGraphs` | packages/core/src/canonical-json.ts:10-90 | serialisation fails exactly when some walk of the graph meets a value without a text, an unfit object, or an object that is its own ancestor |
| `Order.SortKeeps` | packages/core/src/signature.ts:17-51 | sorting by key keeps the items and leaves them ascending |
| `Order.SortForgetsOrder` | packages/core/src/signature.ts:17-51 | two orders of the same items with distinct keys sort to one list |
| `FlowDefinition.RecordsAgree` | packages/core/src/signature.ts:32-51 | two records have one text exactly when every key reads the same in both |
| `FlowDefinition.TextIsTheGraph` | packages/core/src/signature.ts:32-51 | for flows with unique node ids and no repeated edge, the pre-hash texts are equal exactly when nodes, inputs and edges are the same |
| `FlowDefinition.TextForgetsOrder` | packages/core/src/signature.ts:17-51 | any permutation of nodes and edges leaves the pre-hash text as it was |
| `FlowHash.PreHashIsCanonical` | packages/core/src/signature.ts:32-51 | the serialiser, on the object the hash builds, gives the pre-hash text |
| `FlowHash.EdgeKeyIsCanonical` | packages/core/src/signature.ts:7-8 | the serialiser, on the triple an edge is sorted by, gives its sort key |
| `FlowHash.SerialisedAlikeIsSameGraph` | packages/core/src/signature.ts:32-51 | two flows, in whatever heaps, are serialised to one text exactly when they are the same graph |
| `FlowDiff.DiffFlowDefinitions` | packages/core/src/flow-diff.ts:80-175 | there is a fault instead of a diff exactly when a shared node has a key named like an inherited function on one side only; otherwise the loops over maps and lists compute the diff the specification defines, and between graph flows it is empty exactly when the hashed texts agree without the `__proto__` inputs that one side of a shared node has alone and each of those is `{}` |
| `FlowDiff.NodesById` | packages/core/src/flow-diff.ts:32-38 | of nodes with one id, the map holds the last |
| `FlowDiff.EdgesAddedExactly` | packages/core/src/flow-diff.ts:147-160 | an edge is reported as added exactly when the new flow has it and the old one does not |
| `FlowDiff.KeyChangesHas` | packages/core/src/flow-diff.ts:131-144 | a key is reported exactly when the compared forms of its two reads differ, a read falling through to what is inherited |
| `FlowDiff.NodeInputsUnchanged` | packages/core/src/flow-diff.ts:131-144 | a node has no input change exactly when every key either side owns reads the same in both |
| `FlowDiff.EmptyDiffIsSameGraph` | packages/core/src/flow-diff.ts:80-177 | the diff is empty exactly when the two flows are the same graph but for the `__proto__` inputs that one side of a shared node has alone, and each of those is `{}` |
| `FlowDiff.EmptyDiffExactlyWhen` | packages/core/src/flow-diff.ts:80-177 | the same of the texts that are hashed |
| `FlowDiff.EqualTextExactlyWhen` | packages/core/src/flow-diff.ts:49-62 | the hashed texts are equal exactly when they are so without those inputs and each of those is undefined |
| `FlowDiff.EmptyDiffIsEqualText` | packages/core/src/flow-diff.ts:49-62 | the exact condition, read off the two flows, under which an empty diff and an unchanged hash are one thing |
| `FlowDiff.ProtoSharedIsEnough` | packages/core/src/flow-diff.ts:49-62 | it holds of any two graph flows in which no shared node has a `__proto__` input on one side only |
| `FlowDiff.ProtoIsNotSeen` | packages/core/src/flow-diff.ts:131-144 | the input that fails: one node whose inputs are `{"__proto__": {}}` in one flow and `{}` in the other; the diff is empty and the hashed texts differ |
| `FfmpegCompile.GuardStreamRemoval` | packages/core/src/ffmpeg-compile.ts:236-274 | the guard puts back every usable audio stream exactly when all of them were removed and something else that can be written was not |
| `FfmpegCompile.ShouldCopyStream` | packages/core/src/ffmpeg-compile.ts:384-394 | a stream is copied exactly when all its arguments are labels |
| `FfmpegCompile.KeptUpTo` | packages/core/src/ffmpeg-compile.ts:289-307 | the kept positions are those that survive the guard and can be written, ascending |
| `FfmpegCompile.CompileFfmpegArgs` | packages/core/src/ffmpeg-compile.ts:422-542 | the vector or the refusal the specification gives, the streams that could not be written, and how many the guard put back |
| `FfmpegArgv.CompiledVectorMeans` | packages/core/src/ffmpeg-compile.ts:437-542 | under the rule that the last matching codec specifier wins, with ffmpeg's own stream types, the k-th map is the k-th kept stream, a stream that does not encode is copied, and one that encodes gets its own codec and no other |
| `FfmpegArgv.TypeIndexNamesItsStream` | packages/core/src/ffmpeg-compile.ts:323-333 | ffmpeg resolves the type index substituted for a stream to that stream exactly when both count as many of its type before it and take it for that type |
| `FfmpegArgv.CoverArtShiftsTypeIndices` | packages/core/src/ffmpeg-command.ts:40-63 | for streams typed as a command begins them, that is: exactly when no stream kept before it is cover art that only one of the two counts with it |
| `FfmpegArgv.IndexOfFilmNamesItsCover` | packages/plugins-core/src/setVideoEncoder/index.ts:158-166 | the input that fails: cover art, then a film; the film's type index is ffmpeg's index of the cover |
| `FfmpegArgv.CompiledTypeIndexMeans` | packages/core/src/ffmpeg-compile.ts:335-350 | a flag addressed by type and type index reaches the compiled vector, with its value, addressed to exactly its own stream, exactly when the two counts agree |
| `FfmpegArgv.ResolveAddress` | packages/core/src/ffmpeg-compile.ts:341-350 | a flag addressed by the output-index placeholder ends in its own stream's index |
| `FfmpegArgv.VectorIsTrimmed` | packages/core/src/ffmpeg-compile.ts:530-542 | cleaning a command with non-blank arguments only trims them |
| `FfmpegNoop.DescribeCommandChanges` | packages/core/src/ffmpeg-noop.ts:124-260 | no change is described exactly when the command is inert |
| `FfmpegNoop.DescribePositions` | packages/core/src/ffmpeg-noop.ts:210-239 | kept streams are compared with the probe place by place, by index |
| `FfmpegNoop.WouldCommandChangeFile` | packages/core/src/ffmpeg-noop.ts:268-271 | whether any change is described |
| `FfmpegNoop.InertCompilesToPlainRemux` | packages/core/src/ffmpeg-noop.ts:64-260 | an inert command compiles to exactly the input, one identity map per probed stream in probe order, `-c copy`, and the output |
| `FfmpegNoop.FreshCommandIsInert` | packages/core/src/ffmpeg-command.ts:40-63 | a fresh command over a probe describes no change exactly when the probe has streams, and each has an index and can be written |
| `VerifyOutput.VerifyOutput` | packages/engine/src/executor/verify-output.ts:79-175 | no reason is given exactly when the stream count, the audio, the length and the size all hold; the stream-count and lost-audio reasons are given exactly when they apply |
| `VerifyOutput.GuardKeepsAudio` | packages/core/src/ffmpeg-compile.ts:236-274 | whatever a flow removed, a command that had usable audio maps audio or maps nothing |
| `VerifyOutput.GuardActsExactly` | packages/core/src/ffmpeg-compile.ts:236-274 | the guard puts something back exactly when all usable audio, and not everything that can be written, was removed |
| `VerifyOutput.MappedOutputPasses` | packages/engine/src/executor/verify-output.ts:94-117 | an output that holds exactly the mapped streams gets neither the stream-count nor the lost-audio reason |
| `VerifyOutput.VerifyMappedOutput` | packages/engine/src/executor/verify-output.ts:381-390 | the count the runner computes makes that so in the running check |
| `PathMap.CheckAbsolute` | packages/core/src/path-map.ts:26-33 | a path is kept, trimmed, exactly when it is absolute text without dot segments; otherwise the error says which |
| `PathMap.ValidatePathMap` | packages/core/src/path-map.ts:36-105 | a map is kept, trimmed, exactly when every rule holds, and every refusal is a true statement about the map |
| `PathMap.CheckNesting` | packages/core/src/path-map.ts:80-103 | no error exactly when every ordered pair of entries nests alike and at the same suffix |
| `PathMap.MapPath` | packages/core/src/path-map.ts:114-127 | the loop finds the first longest root and moves the path under its counterpart |
| `PathMap.OrderDoesNotMatter` | packages/core/src/path-map.ts:44-60 | two validated maps with the same entries translate every path alike, both ways |
| `PathMap.RoundTrip` | packages/core/src/path-map.ts:62-127 | an absolute path that translates comes back to itself, except exactly when a root whose counterpart is `/` is given with its own trailing slash |
| `PathMap.ValidatedIsInvertible` | packages/core/src/path-map.ts:62-78 | through a validated map every absolute path without a trailing slash comes back, both ways |
| `PathMap.RejectedPairFails` | packages/core/src/path-map.ts:62-103 | a pair the nesting rules reject has a path, on one side, that does not come back |
| `PathMap.RulesAreExact` | packages/core/src/path-map.ts:62-103 | for two distinct roots on each side the nesting rules hold exactly when translation is invertible |
| `Alerts.Coalescer.Offer` | packages/core/src/alerts.ts:113-164 | an offer changes its own key only, as the per-key step says, and is sent exactly when that step says so |
| `Alerts.Coalescer.Due` | packages/core/src/alerts.ts:166-222 | every key steps once, and the follow-ups come in the order the groups were opened |
| `Alerts.Coalescer.FlushGroup` | packages/core/src/alerts.ts:168-220 | one group's turn: its new state, its end, and its follow-up |
| `Alerts.Coalescer.Clear` | packages/core/src/alerts.ts:224-226 | only the cleared key changes |
| `Alerts.NothingIsLost` | packages/core/src/alerts.ts:103-226 | over any run, every offer of a key was sent, suppressed, counted once in a report, is pending, or went with a cleared group |
| `Alerts.RunStaysBounded` | packages/core/src/alerts.ts:143-163 | overflow causes and examples never exceed what is pending |
| `Alerts.FlushEndsOnlyIdleGroups` | packages/core/src/alerts.ts:197-209 | a flush ends a group only with nothing pending |
| `Alerts.CapHolds` | packages/core/src/alerts.ts:136-146 | at every point of every run, at most the cap went out individually since the last flush or clear |
| `Alerts.OutageCauseSentOnce` | packages/core/src/alerts.ts:136-153 | two announcements of one outage cause have the end of the group between them |
| `Alerts.ReportsKeepTheirDistance` | packages/core/src/alerts.ts:166-222 | on a nondecreasing clock two reports of an outage are the repeat interval apart and two of file events the window, unless a clear came between |
| `FlowWalker.Walk.RunFlow` | packages/engine/src/executor/run-flow.ts:104-393 | every run ends within its budget, well walked from its start, for the reason it gives; success means the end of the flow with no failed error branch; nothing runs after an abort or a hold; the steps are exactly the plugins' answers and the failed loads of visited nodes, each once and in order, and an abort has none |
| `FlowWalker.Walk.LoadPluginOnce` | packages/engine/src/executor/run-flow.ts:147-154 | a plugin that loaded is never loaded again in the run, and a failure is not remembered |
| `FlowWalker.Walk.FindStartNode` | packages/engine/src/executor/run-flow.ts:160-177 | the node asked for, or the first in the flow's order that loads as a start, every one before it having loaded as something else or failed to load; an abort is not swallowed |
| `FlowWalker.Walk.FindErrorHandler` | packages/engine/src/executor/run-flow.ts:179-189 | a handler is found exactly when some loadable node is one |
| `FlowWalker.Walk.Visit` | packages/engine/src/executor/run-flow.ts:213-392 | a step is recorded exactly when the node failed to load or its plugin answered; an abort of either call, or arguments that could not be built, record none and end the run |
| `FlowWalker.Walk.FailToLoad` | packages/engine/src/executor/run-flow.ts:226-263 | a node that would not load is a failed step of its own, routed or final |
| `FlowWalker.Walk.RouteFailure` | packages/engine/src/executor/run-flow.ts:344-381 | an unrouted failure jumps to a handler that is another node and was not used, or stops the run |
| `FlowWalker.Walk.Settle` | packages/engine/src/executor/run-flow.ts:278-321 | what the plugin's answer makes of the output, the path, the variables and the error |
| `FlowWalker.OneFailureIsSurvived` | packages/engine/src/executor/run-flow.ts:356-381 | in a well-walked run at most one failure nobody routed is followed by anything, and a hold by nothing |
| `Delivery.Deliverer.Enqueue` | packages/server/src/alerts/deliver.ts:220-235 | the alert is queued, its lane has a pump, and only the lane's oldest can be dropped for it; nothing after the stop |
| `Delivery.Deliverer.Turn` | packages/server/src/alerts/deliver.ts:180-193 | a pump takes the oldest of its lane, or leaves its loop; it takes nothing after the stop |
| `Delivery.Deliverer.Leave` | packages/server/src/alerts/deliver.ts:199-207 | what was queued while the pump was leaving gets a new pump; an empty lane is let go |
| `Delivery.Deliverer.DrainLate` | packages/server/src/alerts/deliver.ts:255-268 | a late drain leaves no alert waiting, and counts what it dropped |
| `Delivery.Deliverer.DrainEnd` | packages/server/src/alerts/deliver.ts:270-272 | a drain reports every drop since the last report |
| `Delivery.Deliverer.Stop` | packages/server/src/alerts/deliver.ts:275-279 | after the stop no alert waits |
| `Delivery.NextAlertKeepsInv` | packages/server/src/alerts/deliver.ts:180-193 | a pump's turn keeps every lane wired, awake and in order |
| `Delivery.LeftKeepsInv` | packages/server/src/alerts/deliver.ts:199-207 | a pump's end keeps every lane wired and awake: no wakeup is lost |
| `Delivery.JoinedKeepsInv` | packages/server/src/alerts/deliver.ts:195-235 | a new alert keeps the queues the newest untaken alerts, in order, within the cap |
| `Delivery.EvictKeepsTidy` | packages/server/src/alerts/deliver.ts:230-233 | an alert is evicted only for as many newer ones of its name as the cap, and is counted |
| `Delivery.TakeKeepsTidy` | packages/server/src/alerts/deliver.ts:180-186 | alerts of one name are taken in the order they were enqueued |
| `Delivery.DrainKeepsTidy` | packages/server/src/alerts/deliver.ts:256-259 | a late drain counts each waiting alert once and the one in flight again |
| `Delivery.EachAlertHasOneFate` | packages/server/src/alerts/deliver.ts:180-273 | every alert is exactly one of taken, evicted, drained, cut off or queued |
| `Delivery.OnePumpPerName` | packages/server/src/alerts/deliver.ts:195-208 | no destination name has two pumps |
| `DaemonAlerts.EverySignalIsSound` | packages/server/src/alerts/daemon-alerts.ts:97-127 | over any history: a recovery only after an announcement with no recovery or forgetting between, no standing outage before the startup delay, and a node's own outage only with no connection seen in the grace before |
| `DaemonAlerts.EventKeepsInv` | packages/server/src/alerts/daemon-alerts.ts:281-344 | every bus event keeps what those three need |
| `DaemonAlerts.ReraiseKeepsInv` | packages/server/src/alerts/daemon-alerts.ts:367-387 | so does every tick |
| `DaemonAlerts.RemovedNodeStaysQuiet` | packages/server/src/alerts/daemon-alerts.ts:201-236 | while a removal is remembered nothing announces that node's own outage |
| `DaemonAlerts.DaemonAlerts.Hear` | packages/server/src/alerts/daemon-alerts.ts:281-344 | the handler does to the standing outages, refusals, removals and signals what the event's step says |
| `DaemonAlerts.DaemonAlerts.BeginOutage` | packages/server/src/alerts/daemon-alerts.ts:98-113 | a repeat keeps the schedule and the flag; an outage is raised once its time has come |
| `DaemonAlerts.DaemonAlerts.NodeWasRefused` | packages/server/src/alerts/daemon-alerts.ts:241-279 | an unauthenticated refusal of a known node counts; the third in the window begins its outage |
| `DaemonAlerts.DaemonAlerts.ExpireRefusals` | packages/server/src/alerts/daemon-alerts.ts:367-378 | refusals out of the window go, and with the last of a node's its standing entry |
| `DaemonAlerts.DaemonAlerts.OfferDue` | packages/server/src/alerts/daemon-alerts.ts:379-387 | everything standing whose time has come is offered |
| `DaemonAlerts.DaemonAlerts.constructor` | packages/server/src/alerts/daemon-alerts.ts:346-352 | what was already wrong at boot is begun at boot |
| `Lease.SupersededIsNeverGranted` | packages/server/src/nodes/hub.ts:416-448 | in every run whatever, once a later attempt has claimed the file an earlier one is granted nothing |
| `Lease.CommittingWasGranted` | packages/core/src/lease.ts:48-70 | in every run whatever, an attempt is committing only if the gate granted it a replacement |
| `Lease.OneCommitter` | packages/core/src/lease.ts:48-70 | in every run in which nothing puts the file back within reach of a claim under a committing attempt, at most one attempt is committing, and while one is, no other claims or is granted anything |
| `Lease.StrandingIsTheDanger` | packages/server/src/db/media-file-repo.ts:483-508 | that condition is exact: after such a run the next event can lead to two committing attempts, with nobody stranded from there on, exactly if it does so |
| `Lease.NextKeepsInv` | packages/server/src/nodes/hub.ts:416-456 | every event, but an operator's hold or requeue over an open attempt, keeps: only the latest attempt open and its file running, and every end on record between grants to different attempts |
| `Lease.GrantsAreSeparated` | packages/server/src/nodes/hub.ts:416-448 | in every run in which no operator holds or requeues the file over an open attempt, whatever two attempts were granted, the first had ended before the second |
| `Lease.CarelessnessIsTheDanger` | packages/server/src/api/routes/files.ts:242-250 | that condition is exact too: after such a run the next event can lead to two open attempts exactly if it is a hold or a requeue over an open one |
| `Lease.CarefulNeverStrands` | packages/server/src/db/media-file-repo.ts:905-917 | careful operators strand nobody |
| `Lease.RequeuedOverAnInstall` | packages/server/src/cli.ts:1309-1321 | the failing run: a file requeued while an attempt is replacing it ends with two committing attempts |
| `Lease.LateResultStrands` | packages/server/src/worker/apply-report.ts:271-277 | the result of an attempt that was requeued over strands its successor |
| `Lease.ExpiredIsFinal` | packages/core/src/lease.ts:39-45 | an attempt whose lease expired is never granted a commit again |
| `Lease.RanOutBarsGrants` | packages/core/src/lease.ts:36-45 | nor is one whose grace ran out by the clock, short of a restart or a held report |
| `Lease.RevivedIsGranted` | packages/server/src/nodes/hub.ts:616-632 | each of those two does revive it: concrete runs |
| `Lease.CommittingIsNeverCutShort` | packages/server/src/nodes/hub.ts:441-447 | disconnects, restarts, clocks, sweeps and operators never take a committing attempt's lease from it, and while nothing strands it nobody else gets in |
| `Lease.RestartGivesAWholeGrace` | packages/core/src/lease.ts:25-34 | nothing expires an unreleased attempt before a whole grace has passed since the restart, unless its node gives it up or it is silent for a day |
| `MediaTracks.StreamLanguage` | packages/plugins-core/src/media-track-options.ts:60-69 | the loop reads the language last set in the arguments, or the tag |
| `MediaTracks.DispositionFlag` | packages/plugins-core/src/media-track-options.ts:71-82 | the loop replays every disposition argument on the probed flag |
| `MediaTracks.ConfiguredCodec` | packages/plugins-core/src/media-track-options.ts:84-92 | the loop finds the codec configured last |
| `MediaTracks.SetDefaultDoesOnlyThat` | packages/plugins-core/src/media-track-options.ts:139-148 | the signed default argument sets the default flag and changes nothing else these plugins read |
| `MediaTracks.ChosenStaysChosen` | packages/plugins-core/src/media-track-options.ts:120-149 | once the chosen track is the only default it is chosen again |
| `MediaTracks.CopyIsNotPreferred` | packages/plugins-core/src/media-track-options.ts:120-126 | a non-default copy of the preferred track, added last, is not preferred to it |
| `AudioTracks.AudioCommand.Run` | packages/plugins-core/src/audioTracks/index.ts:196-243 | the node refuses and changes nothing, or leaves what the specification says |
| `AudioTracks.AudioCommand.ChooseDefault` | packages/plugins-core/src/media-track-options.ts:128-149 | every retained track but the chosen one loses the default flag and the chosen one gains it |
| `AudioTracks.AudioCommand.Survey` | packages/plugins-core/src/audioTracks/index.ts:205-217 | what is retained, and whether that would remove every usable audio track there is |
| `AudioTracks.ConvertedServes` | packages/plugins-core/src/audioTracks/index.ts:162-194 | a converted track reads as stereo AAC and keeps its language, its role and its default flag |
| `AudioTracks.CopiedServes` | packages/plugins-core/src/audioTracks/index.ts:105-160 | a copy is usable stereo AAC of its source's language and role, active, and never default |
| `AudioTracks.SecondRunIsIdle` | packages/plugins-core/src/audioTracks/index.ts:196-243 | run again on its own result the node changes nothing, and where stereo was asked for it is there |
| `AudioTracks.UsableAudioSurvives` | packages/plugins-core/src/audioTracks/index.ts:209-217 | if some active audio was usable, some still is |
| `AudioTracks.OthersAreUntouched` | packages/plugins-core/src/audioTracks/index.ts:218-240 | a stream that is not retained audio is exactly as it was, but for the removed flag, and at most one stream is added |
| `Progress.ProgressParser.Push` | packages/engine/src/ffmpeg/progress.ts:28-60 | one push is the fold of the lines it completes, and what is kept back holds no newline |
| `Progress.LinesOfTwo` | packages/engine/src/ffmpeg/progress.ts:29-36 | the lines of a text cut in two are those of its first part and those of what that left over with the second |
| `Progress.ChunksDoNotMatter` | packages/engine/src/ffmpeg/progress.ts:18-22 | however a text is cut, the pieces give the updates and the state of the whole |
| `Progress.UpdateReportsItsBlock` | packages/engine/src/ffmpeg/progress.ts:38-56 | an update reports the last value each key was given since the update before, and leaves no field behind |

## Left out

- ReplaceOriginal.SwapLanded: where sizes decide, no bytes are read, so the outcome is marked `guessed` and promises the original in trash but not the content at the final path; `StrangerReadsAsLanded` shows why it cannot.
- ReplaceOriginal.Preflight: canonical paths are compared as equal paths, so symlink aliases of one file are not modelled; duration guards, companion files and progress text are calls that may fail.
- ReplaceWorkers.EveryOriginalIsReachable: for moves that all take one branch and displace no held reservation, as `SafeExactlyWhen` needs; otherwise it is refuted.
- ReplaceWorkers.OneWinnerPerDestination: likewise, for workers with distinct originals, new files and staging names; users other than the workers take no steps.
- ReplaceWorkers.Next: a displaced reservation is unlinked with its rename; taking a reservation and reading its inode is one call.
- FileSystem.BystandersKept: what others do between this worker's calls is theirs; each call alone is `Honest` whatever they do.
- FileSystem.Fs.Rename: the destination is found free under this worker's reservation and `Rely` keeps it so; an outsider that ignores reservations and creates it between the check and the rename is not modelled, and would be overwritten.
- ReplaceOriginal.ReplaceOriginalFile: others are confined to `Rely`, as above.
- ReplaceOriginal.ReserveDestination: a reservation's age is an answer of the host, not a clock and an mtime.
- CanonicalJson.CanonicalJson: array holes and negative zero are not modelled; a number is its spelling as the host prints it; it reads own keys only, as the code does.
- FlowDiff.DiffFlowDefinitions: what is inherited is `Object.prototype` as the language defines it; a program that has added to it is not modelled.
- FlowDefinition.TextIsTheGraph: stated on the text before SHA-256, which is not modelled; flow inputs are values that serialise.
- FfmpegArgv.OutputTypes: ffmpeg's type of an output is that of the stream mapped to it, so the type-index results are about streams that map their own track; a stream whose map was rewritten to another track is not typed by it.
- FfmpegArgv.CompiledVectorMeans: for commands whose arguments are paired and non-blank and whose codec flags are addressed by the output-index placeholder, as the plugins write them; other arguments are compiled as they stand but not interpreted.
- FfmpegCommand.Lower: lower-casing is ASCII only.
- FfmpegCompile.CompileFfmpegArgs: streams are identified by position, so one stream object held twice in a command is not modelled; log text is left out.
- VerifyOutput.VerifyOutput: running times are given, read or unread; parsing them and floating-point rounding are left out.
- PathMap.ValidatePathMap: error wording is left out; which rule failed, and where, is kept.
- Alerts.Coalescer.Offer: `normalizeCause` is not modelled; a cause is given.
- DaemonAlerts.EverySignalIsSound: one clock reading serves a whole event, the raises of one tick count as one signal, and the alert service does not throw.
- Delivery.Deliverer.Turn: what a delivery does (retries, backoff, redirects, aborts) is not modelled, only that it ends; direct sends bypass the lanes.
- FlowWalker.Walk.RunFlow: step timing and the step callback are left out; the host's argument builder may fail and ends the run.
- Lease.OneCommitter: a claim and the start of its job are one step, as are an attempt's end and the row it writes; deletion, priorities and files missing from disk only keep claims away and are left out, and the database is not part of this model.
- FlowHash.PreHashIsCanonical: a node's inputs are taken as the serialiser meets them in place, below the objects the hash builds.
- Lease.RanOutBarsGrants: one-way; the two events that revive a lease are shown to do so on concrete runs.
- MediaTracks.ReadWritten: an argument list that ends in a lone flag is read as the code reads it, but the flag's missing value is not carried into a rewritten list.
- AudioTracks.SecondRunIsIdle: on paired output arguments; the language normaliser and the reading of an `-ac` value as a number are opaque, and input parsing, its errors, and the check that a command was begun are left out.
- Progress.ProgressParser.Push: `Number.parseFloat` is opaque, and keys named like inherited properties are ordinary keys.
- HTTP, WebSocket, OIDC, the CLI, the web UI, the database repositories, the supervisor and the scanner: I/O around these cores.
- The ledger, schedule, facts, identity, hardware and router modules: short functions that would add only easy members.
- UUIDs are new names and clocks are inputs; real ffmpeg, ffprobe, sqlite and timers are not modelled.
