# Failover operator: a verified model

The operator moves workloads away from failed nodes, control planes and cluster networks.  It drives Kubernetes, Gitea,
MinIO, a registry and Argo CD; between those calls sit a few concurrent or stateful algorithms of its own.  This project
models these algorithms and proves what they keep, over every input, every interleaving and the failures of the
external calls.

| Module | What it models |
|---|---|
| `ManifestScan` | the pipeline of walker, workers, closer and collector that finds a workload's manifests in a clone |
| `ScanTargets` | which files a scan reads and which documents it counts, in terms of names and fields |
| `ScanFaults`, `ScanErrors`, `ScanLeftovers` | which scans can swallow an error, which can return one, and which can leave a goroutine blocked |
| `ImageRewrite` | the in-place replacement of container images in a parsed manifest, and the file update around it |
| `BatchRewrite`, `BatchVerdicts` | the concurrent update of all reported paths, duplicates included, and what it reports |
| `TransitionLog` | the log of transitioned packages and the gate that reads it |
| `Dispatch`, `DispatchGate` | the scan that de-duplicates keys and spawns workers under a semaphore while they append to that log |
| `WorkloadSweep`, `MissedHealthSweep` | its two uses: the pods of a failed node, and the checkpoints of a package |
| `CheckpointCreation` | the creation of checkpoints for a package that has none |
| `MissedHealthTransition` | the ordered effects of one transition and the record it leaves |
| `FailoverRun` | the scan and the transition that uses its result, end to end |
| `CheckpointRun`, `CheckpointTags` | a checkpoint run: phase, original image, last checkpoint image, and the images pushed; the tags many checkpoints share a registry under |
| `Episodes` | the trace specification of a miss-counting detector |
| `NodeDetector`, `NodeHistory` | the heartbeat store, the node monitor, and both under any interleaving |
| `ClusterProbes`, `ControlPlaneDetector`, `CniDetector`, `PolicyRace` | the two monitors of a cluster, and the policy they share |
| `CronMirror` | the checkpoint job table against the live cron entries |
| `MonitorRegistry` | the registry of running monitors |
| `Keys`, `Wrappers` | slash-joined keys; optional values and the unit of time |

Code that updates objects is written as classes and methods with loops, each proved against a specification function on
which the laws are then proved.  Code whose point is concurrency is a transition system: a `State`, the `Action`s of its
goroutines, `Enabled` and `Step`; a run is a sequence of enabled actions, and a statement about runs is about all of
them.  External calls are outcomes handed in as parameters, time is a natural number of nanoseconds.

## Where the code does less than its names or comments promise

Each of these is stated exactly, with the condition under which the promise does hold.

- The scan may return without error and without all matches, because the `done` arm can win over a `matchCh` that still
  holds paths.  It is complete on every schedule exactly if there is nothing to find
  (`ManifestScan.CompleteIffNothingToFind`).
- A pending error can lose against the closed `matchCh` as well: then the scan returns without error and without the
  matches of the files that failed (`ScanFaults.UnreadableMatchIsMissed`).  Every failure does raise an error
  (`ScanErrors.ErrorRaisedIff`), and until the collector returns some schedule returns one if the tree holds a failure
  at all (`CanFailIff`); but uncancelled scans never swallow an error exactly if the walk meets none and every manifest
  can be read and decoded (`ScanFaults.ErrorsSurfaceIff`).  For these trees the exit through the closed `matchCh` is
  complete (`CleanTreeExit`).
- A Completed record does not say that all matching manifests were updated, as the transition works on what the scan
  reported.  If nothing else goes wrong and the matches fit into `matchCh`, it does say so on every schedule exactly if
  all matches lie in one file (`FailoverRun.CompletedMeansUpdatedIff`).
- After an early return a worker may stay blocked on a full `matchCh`, or the walker on a full `fileCh`.  This cannot
  happen exactly if at most 100 matches can be sent at all, each worker giving up at its first bad file, and at most 100
  manifests more than workers come before the walk's first error (`ScanLeftovers.NeverLeaksIff`).
- A path reported twice is updated twice at the same time, and writing truncates the file first: the second update may
  find it empty and fail, which ends the transition without a record.  The files come out right on every schedule
  (`BatchRewrite.Confluence`); updatable paths are never reported as failed exactly if no file that is to be written
  occurs twice or the updates are done one at a time (`BatchVerdicts.NoSpuriousErrorIff`), and the record of a stateful
  transition, which does two at a time, depends on the former (`MissedHealthTransition.StatefulRecordIff`).
- Records of one package with the same time: the earlier one keeps deciding (`TransitionLog.AppendSame`,
  `TiesKeepTheFirst`).
- The gate is per package, the work per workload: once one workload of a package is Completed, the others may be skipped
  by the same sweep, and a later failure of one of them opens the gate again.  All are transitioned on every schedule,
  and a gate once closed stays closed, exactly if there is only one workload (`WorkloadSweep.SweptIffOneWorkload`,
  `ClosedStaysIffOneWorkload`).
- The missed-health key names a pod without its namespace: of two pods of one name at most one is transitioned by a call
  (`MissedHealthSweep.SameNameServedOnce`).  The pods of all marked checkpoints are transitioned on every schedule
  exactly if they are one pod, namespace included (`AllPodsServedIff`).
- A package that has checkpoints, none of them marked for the cluster policy, is neither transitioned nor given new
  checkpoints (`MissedHealthSweep.NeitherStage`).
- The creation key has no workload kind, the name of the created checkpoint has no pod namespace, and a name that is
  taken passes for a success.  Every eligible workload gets a checkpoint of its own exactly if no two of them in one
  namespace share a name across kinds, the first pods of different keys have different names, and none of the generated
  names exists already (`CheckpointCreation.EveryWorkloadCoveredIff`; the inputs `StatefulSetHidesDaemonSet`,
  `SameNameInTwoNamespaces` and `DashesAreAmbiguous`).
- While a pod with several containers is checkpointed, the stored `LastCheckpointImage` may belong to one container and
  `OriginalImage` to the next, even if nothing fails.  This cannot happen exactly if all containers run one image
  (`CheckpointRun.PairedIffOneImage`).
- Pods of one namespace can share an image tag: pod `a` with container `b-c` and pod `a-b` with container `c`
  (`CheckpointTags.TagsCoincideIff`).  The pushes of another checkpoint leave a pairing intact exactly if each goes to
  another tag or builds on the same image (`PairedBesideOthersIff`).
- Both monitors of a cluster can migrate from the same empty log (`PolicyRace.BothMigrate`).  At most one does exactly if
  something is recorded before the log is read for the second time (`AtMostOneMigrationIff`).
- `LastCheckpointTime` is documented as the time of the last success (api/v1/checkpoint_types.go:176-178) but is also set
  when a run starts and when it fails.  It is the time of the last success exactly if the last run that stored anything
  succeeded (`CheckpointRun.LastTimeIsLastSuccessIff`).
- Updating a manifest keeps its first document only, exactly if that document is changed
  (`ImageRewrite.OtherDocumentsSurvive`).  The comments speak of container names; the code compares images.
- `MonitorNodes` returns for good when the machines of an unhealthy node cannot be listed (`NodeHistory.StopsIff`), after
  which no node is declared unhealthy any more (`SilentAfterStop`).  The nodes after it in the map order are left
  unprocessed: what a tick declares and leaves behind is independent of that order exactly if this does not happen or no
  unhealthy node could have been declared anyway (`NodeDetector.OrderIndependentIff`).
- A cluster named like another one plus `-cni` keeps a monitor of the other from starting, or the reverse.  The two kinds
  of monitor are independent exactly if there is no such pair (`MonitorRegistry.KindsIndependentIff`).
- A checkpoint's job is removed and scheduled anew on every reconciliation, not only when the schedule changed as the
  comment says; a rejected schedule therefore leaves the checkpoint without any job (`CronMirror.LastEventDecides`).
- The comment of `HandlePodsOnNodeForPolicy` speaks of selection modes (internal/controller/clusterpolicy_controller.go:615-618);
  the code has none, and neither has the model.

## Model

| member | source | states |
|---|---|---|
| ManifestScan.StepAdvances | reconcilers/gitaclient/gitea.go:83-193 | Every step of any goroutine keeps the invariant (bounded buffers, wait group equal to the running workers, closing order, no panic), conserves the matches per path and in total, and lowers the termination measure. |
| ManifestScan.RunInv | reconcilers/gitaclient/gitea.go:74-193 | The same along whole runs, whose length the measure bounds. |
| ManifestScan.Conservation | reconcilers/gitaclient/gitea.go:74-193 | In every reachable state unwalked, queued, held, buffered, collected and lost matches add up to those of the tree, per path and in total; nothing is lost without a fault. |
| ManifestScan.CloseOrder | reconcilers/gitaclient/gitea.go:147-174 | `matchCh` is closed only after all workers returned, `fileCh` only after the walk; no send hits a closed channel; both buffers stay within 100. |
| ManifestScan.Progress | reconcilers/gitaclient/gitea.go:74-193 | Until the collector returns something other than a cancellation can happen, even when workers died on errors and buffers are full; every run is finite. |
| ManifestScan.LossySchedule | reconcilers/gitaclient/gitea.go:176-192 | From every reachable state with a match still to collect there is a schedule that returns nil error through the done arm with a match missing. |
| ManifestScan.CompleteIffNothingToFind | reconcilers/gitaclient/gitea.go:184-192 | A nil-error return is complete on every schedule if and only if the tree holds no match. |
| ScanFaults.StepTracks | reconcilers/gitaclient/gitea.go:83-193 | A step other than a cancellation faults only on something unclean, and whatever is unclean stays until it faults. |
| ScanFaults.CleanTreeExit | reconcilers/gitaclient/gitea.go:168-193 | An uncancelled scan of a tree in which nothing can fail returns without error; through the closed `matchCh` with exactly the multiset of matching documents' paths, through `done` with that minus what is buffered; all workers have returned. |
| ScanFaults.SwallowedError | reconcilers/gitaclient/gitea.go:176-192 | From every state with a fault behind or ahead there is a schedule that returns nil error through the closed `matchCh`. |
| ScanFaults.ErrorsSurfaceIff | reconcilers/gitaclient/gitea.go:92-120 | No uncancelled run returns without error after a fault if and only if the walk meets no error and every manifest can be read and decoded. |
| ScanFaults.UnreadableMatchIsMissed | reconcilers/gitaclient/gitea.go:92-99 | A tree with one unreadable matching manifest, and the run that returns nil error with nothing found. |
| ScanErrors.ErrorRaisedIff | reconcilers/gitaclient/gitea.go:83-183 | In every state of an uncancelled scan an error is pending or was returned if and only if the walk is past its first error, or a worker has failed on one of the manifests before it; while the collector works, that is when its error arm is ready. |
| ScanErrors.CanFailIff | reconcilers/gitaclient/gitea.go:92-183 | From every state of an uncancelled scan with the collector at work some schedule returns an error if and only if the tree holds a walk error or a .yaml or .yml file that cannot be read or decoded. |
| ScanTargets.ManifestNames | reconcilers/gitaclient/gitea.go:159-161 | A file is read if and only if its name ends in .yaml or .yml, in upper or lower case. |
| ScanTargets.MatchesIffAsked | reconcilers/gitaclient/gitea.go:122-133 | A document matches if and only if kind and name are those asked for and the namespaces are equal or each is absent or "default". |
| ScanTargets.ExpectedMeaning | reconcilers/gitaclient/gitea.go:101-137 | The expected matches hold each path once for every such document in a manifest of that name. |
| ScanTargets.ReportsAsked | reconcilers/gitaclient/gitea.go:76-189 | So does the result of every uncancelled scan of a tree in which nothing can fail that returns through the closed `matchCh`. |
| ScanLeftovers.StuckMeans | reconcilers/gitaclient/gitea.go:83-174 | When walker, workers and closer cannot move they are all gone, or a worker is blocked on a full `matchCh`, or the walker on a full `fileCh` without workers. |
| ScanLeftovers.ReachRun | reconcilers/gitaclient/gitea.go:83-139 | The matches that are sent, about to be sent or still sendable stay the same along every run; only a cancellation lowers them. |
| ScanLeftovers.NobodyLeftBehind | reconcilers/gitaclient/gitea.go:75-174 | With at most 100 matches to be sent and at most 100 manifests more than workers every run ends all goroutines, whatever fails and whenever it is cancelled. |
| ScanLeftovers.ManyMatchesLeaveSender | reconcilers/gitaclient/gitea.go:134 | With more than 100 matches to be sent a cancelled run leaves a worker blocked forever. |
| ScanLeftovers.ManyManifestsLeaveWalker | reconcilers/gitaclient/gitea.go:86-90 | With more manifests a cancelled run leaves the walker blocked forever, as each worker gives up with its first file. |
| ScanLeftovers.NeverLeaksIff | reconcilers/gitaclient/gitea.go:75-193 | For every tree, no run leaves a goroutine behind if and only if both bounds hold. |
| ScanLeftovers.CleanSendsAll | reconcilers/gitaclient/gitea.go:101-137 | In a tree in which nothing can fail every match can be sent. |
| ImageRewrite.PodSpec.UpdateArray | reconcilers/gitaclient/gitea.go:437-448 | The inner loop sets the checkpoint image in exactly the containers that ran the original one and reports whether there was one. |
| ImageRewrite.PodSpec.UpdateContainers | reconcilers/gitaclient/gitea.go:434-451 | The pod spec becomes its rewrite; `changed` if and only if some container or init container ran the original image. |
| ImageRewrite.RewriteFrame | reconcilers/gitaclient/gitea.go:434-451 | Only the `image` of containers that run the non-empty original changes, only in the lists `containers` and `initContainers`; keys, lengths and all else stay. |
| ImageRewrite.UsesMeaning | reconcilers/gitaclient/gitea.go:436-447 | A pod uses an image if and only if a container of one of these two lists runs it. |
| ImageRewrite.Idempotent | reconcilers/gitaclient/gitea.go:434-451 | Rewriting twice is rewriting once. |
| ImageRewrite.RoundTrip | reconcilers/gitaclient/gitea.go:434-451 | Rewriting back restores the pod if and only if the images are equal, or nothing ran the checkpoint image and it is non-empty where needed. |
| ImageRewrite.RewriteChanges | reconcilers/gitaclient/gitea.go:440-444 | A rewrite of a pod that runs the original image to another image changes the pod. |
| ImageRewrite.Checkout.UpdateResourceContainers | reconcilers/gitaclient/gitea.go:376-422 | The error of the first failing check, of marshalling or of writing, else the file's update; every other file is untouched. |
| ImageRewrite.LocateMeaning | reconcilers/gitaclient/gitea.go:387-410 | The error of a decodable file in terms of its first document: a kind other than Deployment, ReplicaSet, DaemonSet and StatefulSet, or the first of spec, spec.template and spec.template.spec that is no mapping. |
| ImageRewrite.UndecodableIsUnmarshal | reconcilers/gitaclient/gitea.go:382-385 | The unmarshal error if and only if the file is malformed or its first document is neither a mapping nor null. |
| ImageRewrite.LocateWithPod | reconcilers/gitaclient/gitea.go:392-421 | The pod spec written back is found again at its place, and the tree around it is unchanged. |
| ImageRewrite.UpdatedTwice | reconcilers/gitaclient/gitea.go:376-422 | A second update of a file changes nothing and fails if and only if the first did. |
| ImageRewrite.ErrorsLeaveTheFile | reconcilers/gitaclient/gitea.go:412-421 | Without an error the file is the intended update; with one it is unchanged unless a write broke off. |
| ImageRewrite.OtherDocumentsSurvive | reconcilers/gitaclient/gitea.go:382-421 | Further documents of a file survive an update if and only if there are none or the first one is not rewritten. |
| BatchRewrite.StepInv | reconcilers/checkpoint_transition/nodehealth_transition.go:263-276 | Whatever goroutine reads, truncates or writes next, every file stays the original or its update, or is empty while someone is about to write it. |
| BatchRewrite.Confluence | reconcilers/checkpoint_transition/nodehealth_transition.go:258-285 | After any interleaving the files are those of updating each distinct path once, and every path that cannot be updated reported an error. |
| BatchRewrite.DuplicatesAreHarmless | reconcilers/gitaclient/gitea.go:131-136 | Lists with the same set of paths give the same files, whatever their order, duplicates and interleaving; what they report is the subject of `BatchVerdicts`. |
| BatchVerdicts.OnlyBadPathsFail | reconcilers/checkpoint_transition/nodehealth_transition.go:270-285 | If no file that is to be written was reported twice, or the updates are done one at a time, exactly the paths that cannot be updated report an error, on every schedule. |
| BatchVerdicts.RunToEnd | reconcilers/checkpoint_transition/nodehealth_transition.go:260-277 | Every state of a batch can be run to its end, and a verdict once given stays. |
| BatchVerdicts.FailingSchedule | reconcilers/gitaclient/gitea.go:421 | For a file to be written that was reported twice: the schedule on which the second update reads the truncated file and fails. |
| BatchVerdicts.NoSpuriousErrorIff | reconcilers/checkpoint_transition/nodehealth_transition.go:258-285 | No updatable path reports an error on any schedule if and only if no file that is to be written was reported twice, or the limit is one. |
| BatchVerdicts.AtMostAtWork | reconcilers/checkpoint_transition/nodehealth_transition.go:260-268 | In every state of a batch at most the limit are between their first and their last step. |
| Keys.JoinInjective | internal/controller/clusterpolicy_controller.go:639 | A slash-joined key with a slash-free first part can be taken apart in one way only. |
| TransitionLog.IsPackageTransitioned | reconcilers/helpers/clusterpolicy_helpers.go:198-234 | True if and only if the earliest-indexed record among the latest ones of that name is Completed. |
| TransitionLog.SomeoneDecides | reconcilers/helpers/clusterpolicy_helpers.go:200-209 | A mentioned name has a deciding record. |
| TransitionLog.AppendOther | internal/controller/clusterpolicy_controller.go:940-948 | Records of other packages do not move the gate. |
| TransitionLog.AppendSame | reconcilers/checkpoint_transition/nodehealth_transition.go:359-367 | An appended record decides if and only if it is strictly later than all of its name; otherwise the gate stays as it was. |
| TransitionLog.LastRecordDecides | reconcilers/helpers/clusterpolicy_helpers.go:200-218 | Under strictly increasing times the gate is closed if and only if the last record of the name is Completed. |
| TransitionLog.TiesKeepTheFirst | reconcilers/helpers/clusterpolicy_helpers.go:204 | Two records of one instant: Failed then Completed stays open, Completed then Failed stays closed. |
| Dispatch.StepAdvances | internal/controller/clusterpolicy_controller.go:673-714 | Every step of the scan or of a worker keeps slots, wait group and keys consistent and lowers the measure. |
| Dispatch.AtMostOnce | internal/controller/clusterpolicy_controller.go:629-715 | In every reachable state each key was dispatched at most once and no more workers than the limit run; at return all have finished. |
| Dispatch.Progress | internal/controller/clusterpolicy_controller.go:692-714 | The call never gets stuck and every run of it is finite. |
| Dispatch.Completeness | internal/controller/clusterpolicy_controller.go:673-714 | A candidate whose gate never closed is dispatched by the time the call returns. |
| Dispatch.Soundness | internal/controller/clusterpolicy_controller.go:673-709 | Only candidates are ever dispatched. |
| Dispatch.Stability | internal/controller/clusterpolicy_controller.go:673-709 | A package transitioned at the start stays so in every state and is never dispatched, whatever the workers append. |
| Dispatch.MissingSchedule | internal/controller/clusterpolicy_controller.go:677-680 | A candidate behind another workload of its package is never dispatched if each worker completes before the scan goes on. |
| Dispatch.SweptIffOneKey | internal/controller/clusterpolicy_controller.go:673-714 | All candidates of an open package are dispatched on every schedule if and only if they share one key. |
| Dispatch.AtOnceIff | internal/controller/clusterpolicy_controller.go:633-715 | Candidates with new keys and open gates can be at work n at once if and only if n is within the limit. |
| DispatchGate.ClosingRun | internal/controller/clusterpolicy_controller.go:695-709 | With one key per package, a gate closed during a sweep was closed by the package's one record, after which nothing for it is appended. |
| DispatchGate.TwoKeysReopen | internal/controller/clusterpolicy_controller.go:692-709 | With two keys there is a schedule on which one worker completes the package and another then fails it. |
| DispatchGate.ClosedStaysIff | internal/controller/clusterpolicy_controller.go:673-714 | With a limit of two or more, a gate once closed in a sweep stays closed on every schedule if and only if all candidates of the package share one key. |
| WorkloadSweep.VisitsExact | internal/controller/clusterpolicy_controller.go:636-692 | The candidates are exactly the policy's packages named by listed pods whose workload was resolved and is marked "true" for the cluster policy, each under its key and with its pod. |
| WorkloadSweep.CandidatesOf | internal/controller/clusterpolicy_controller.go:641-675 | A pod whose workload is not resolved or not marked "true" makes no candidate, any other one for each selector of its package. |
| WorkloadSweep.TasksAreMarked | internal/controller/clusterpolicy_controller.go:641-709 | Every task of every run transitions a listed pod whose workload was resolved, is marked "true" and names the task's package, one of the policy's. |
| WorkloadSweep.ServedIffMarked | internal/controller/clusterpolicy_controller.go:636-715 | At return, with the gate never closed, something of a package was transitioned if and only if it is one of the policy's and some listed pod's resolved workload is marked "true" and names it. |
| WorkloadSweep.WorkloadKeyInjective | internal/controller/clusterpolicy_controller.go:639-682 | For slash-free namespaces, names and kinds the key determines namespace, workload and package. |
| WorkloadSweep.DispatchedExactlyOnce | internal/controller/clusterpolicy_controller.go:629-715 | At return, a wanted package of a workload whose gate never closed has exactly one task, and it has finished. |
| WorkloadSweep.NeverTwice | internal/controller/clusterpolicy_controller.go:684-692 | No two tasks serve the same package of the same workload; at most four are in flight; each serves a listed pod. |
| WorkloadSweep.FourAtOnce | internal/controller/clusterpolicy_controller.go:633-694 | Candidates that do not stand in each other's way can be at work n at once if and only if n is at most four. |
| WorkloadSweep.ClosedStaysClosed | internal/controller/clusterpolicy_controller.go:677-680 | A package Completed at the start of a sweep stays transitioned throughout and is never dispatched by it. |
| WorkloadSweep.SweptIffOneWorkload | internal/controller/clusterpolicy_controller.go:636-714 | All workloads of an open package are transitioned on every schedule if and only if there is only one. |
| WorkloadSweep.ClosedStaysIffOneWorkload | internal/controller/clusterpolicy_controller.go:636-714 | A package completed during a sweep stays transitioned to its end on every schedule if and only if it has only one workload there. |
| MissedHealthSweep.CheckpointVisitsExact | reconcilers/checkpoint_transition/nodehealth_transition.go:45-57 | The candidates are exactly the checkpoints marked "true" for the cluster policy that name the package, each under its key and with its pod. |
| MissedHealthSweep.TasksAreMarked | reconcilers/checkpoint_transition/nodehealth_transition.go:45-70 | Every task of every run transitions the pod of a listed checkpoint that is marked "true" and names the package. |
| MissedHealthSweep.TransitionsIffMarked | reconcilers/checkpoint_transition/nodehealth_transition.go:45-72 | At return, with the gate never closed, something was transitioned if and only if some checkpoint of the package is marked "true". |
| MissedHealthSweep.TwoAtOnce | reconcilers/checkpoint_transition/nodehealth_transition.go:43-70 | Candidates that do not stand in each other's way can be at work n at once if and only if n is at most two. |
| MissedHealthSweep.HasCheckpoint | reconcilers/checkpoint_transition/nodehealth_transition.go:75-81 | The second stage is skipped if and only if some checkpoint names the package, marked or not. |
| MissedHealthSweep.KeyNamesPod | reconcilers/checkpoint_transition/nodehealth_transition.go:57 | Two checkpoints share a key if and only if their pods share a name, whatever the namespaces. |
| MissedHealthSweep.OncePerPodName | reconcilers/checkpoint_transition/nodehealth_transition.go:41-72 | At return, with the gate never closed, each pod name was transitioned exactly once and has finished. |
| MissedHealthSweep.SameNameServedOnce | reconcilers/checkpoint_transition/nodehealth_transition.go:57-69 | Of two pods of one name in different namespaces at most one gets a transition from a call. |
| MissedHealthSweep.AllPodsServedIff | reconcilers/checkpoint_transition/nodehealth_transition.go:45-72 | For an open gate, the pods of all marked checkpoints get a transition on every schedule if and only if they are one pod, namespace included. |
| MissedHealthSweep.TwoNamespaces | reconcilers/checkpoint_transition/nodehealth_transition.go:57 | Two marked checkpoints of pods of one name in two namespaces: on no schedule are both served. |
| MissedHealthSweep.ClosedStaysIffOnePodName | reconcilers/checkpoint_transition/nodehealth_transition.go:45-72 | A package completed during the call stays transitioned on every schedule if and only if its marked checkpoints share one pod name. |
| MissedHealthSweep.StagesExclude | reconcilers/checkpoint_transition/nodehealth_transition.go:74-83 | A call that transitioned something finds a checkpoint of the package and so creates none. |
| MissedHealthSweep.NeitherStage | reconcilers/checkpoint_transition/nodehealth_transition.go:45-83 | With an open gate neither stage acts if and only if the package has checkpoints and none of them is marked "true". |
| CheckpointCreation.CreateCheckpoints | reconcilers/checkpoint_transition/nodehealth_transition.go:100-145 | Attempts a creation for the first eligible pod of every key up to the first refused one; creates where the generated name is free and passes over taken names; does nothing for a transitioned package. |
| CheckpointCreation.CreatesForThePackage | reconcilers/checkpoint_transition/nodehealth_transition.go:102-145 | Checkpoints are created only for pods whose resolved workload names the package, marked for the policy or not; each such pod's namespace and workload name get one, unless the generated name was taken. |
| CheckpointCreation.CreationKeyNames | reconcilers/checkpoint_transition/nodehealth_transition.go:124 | Within a package two pods share a creation key if and only if their workloads share namespace and name. |
| CheckpointCreation.CheckpointNamesPod | reconcilers/checkpoint_transition/checkpoint_transition.go:352-356 | Within a policy and package two pods share the generated checkpoint name if and only if they share their name, whatever the namespaces. |
| CheckpointCreation.OnlyFirstCovers | reconcilers/checkpoint_transition/checkpoint_transition.go:360-365 | The workload of the first pod of a key has a checkpoint of its own if and only if that pod's name was free. |
| CheckpointCreation.EveryWorkloadCoveredIff | reconcilers/checkpoint_transition/nodehealth_transition.go:102-145 | After a creation loop that went through with an open gate, every eligible workload has a checkpoint of its own if and only if no two of one namespace share a name across kinds, the first pods of different keys have different names, and none of the generated names existed before. |
| CheckpointCreation.StatefulSetHidesDaemonSet | reconcilers/checkpoint_transition/nodehealth_transition.go:124-128 | Of a StatefulSet and a DaemonSet with one name in one namespace only the first gets a checkpoint. |
| CheckpointCreation.SameNameInTwoNamespaces | reconcilers/checkpoint_transition/checkpoint_transition.go:352-365 | Of two StatefulSets with one name in two namespaces only the first gets a checkpoint, although their keys differ. |
| CheckpointCreation.DashesAreAmbiguous | reconcilers/checkpoint_transition/checkpoint_transition.go:356 | Pod x of package y-z and pod x-y of package z ask for the same checkpoint name. |
| CheckpointRun.Checkpoint.CheckpointContainer | internal/controller/checkpoint_controller.go:517-669 | Memory, stored status and registry after the steps of one container, for every combination of outcomes, and every state passed through on the way. |
| CheckpointRun.Checkpoint.PerformCheckpoint | internal/controller/checkpoint_controller.go:466-514 | Nothing happens for a missing or not running pod; otherwise the container loop, ended by its first error, with every state passed through. |
| CheckpointRun.FirstErrorStops | internal/controller/checkpoint_controller.go:485-498 | After the first failing container nothing changes any more. |
| CheckpointRun.RunOutcome | internal/controller/checkpoint_controller.go:485-669 | A run succeeds if and only if all eight steps of every container do: every image pushed in order, Completed on the last one, in memory and stored. Otherwise the first container with a failed step stops it: its image is pushed if and only if its first six steps succeeded, the status in memory is Failed with its image, and the stored one is the last that got through. |
| CheckpointRun.RegistryHoldsPushed | internal/controller/checkpoint_controller.go:611-623 | After any history of runs, every image the registry holds stems from a container whose push succeeded. |
| CheckpointRun.RunBegins | internal/controller/checkpoint_controller.go:135-416 | A run after a reconciliation begins with the stored status, whatever the run before left in memory; one of the same cron job with what that left. |
| CheckpointRun.LastImageIsLastPush | internal/controller/checkpoint_controller.go:610-661 | `LastCheckpointImage` is its initial value until something is pushed, then the image pushed last. |
| CheckpointRun.PairedThroughout | internal/controller/checkpoint_controller.go:521-535 | In every state of every run of any history with one image, a non-empty `LastCheckpointImage` was built on `OriginalImage`, in memory and as stored. |
| CheckpointRun.MispairedRun | internal/controller/checkpoint_controller.go:521-529 | For two neighbouring containers of different images: a run in which every step succeeds, and the state of it in which the stored images are not paired. |
| CheckpointRun.PairedIffOneImage | internal/controller/checkpoint_controller.go:485-630 | All states of all histories of runs of a pod are paired if and only if all its containers run one image. |
| CheckpointRun.LastTimeIsLastSuccessIff | internal/controller/checkpoint_controller.go:521-535 | Under increasing times the stored `LastCheckpointTime` is that of the last success if and only if the last run that stored anything succeeded. |
| CheckpointTags.TagsCoincideIff | internal/controller/checkpoint_controller.go:593-594 | Within a repository two containers share a tag if and only if they are in one namespace and pod, dash and container name read the same. |
| CheckpointTags.DashesShareTags | internal/controller/checkpoint_controller.go:593-594 | Container b-c of pod a and container c of pod a-b share their tag. |
| CheckpointTags.PairedBesideOthersIff | internal/controller/checkpoint_controller.go:610-627 | The pushes of other checkpoints leave a status paired at every moment if and only if each goes to another tag or builds on the same image. |
| CheckpointTags.ApartStaysPaired | internal/controller/checkpoint_controller.go:610-627 | Pods whose containers have different tags never disturb each other's pairing. |
| CheckpointTags.SharedTagBreaksPairing | internal/controller/checkpoint_controller.go:610-627 | Under a shared tag one push of another image breaks it. |
| MissedHealthTransition.PolicyTransition.FindCheckpoint | reconcilers/checkpoint_transition/nodehealth_transition.go:224-243 | The last scheduled backup's checkpoint; any that cannot be fetched or has no image aborts. |
| MissedHealthTransition.AssociatedMeaning | reconcilers/checkpoint_transition/nodehealth_transition.go:224-243 | A checkpoint is found if and only if some entry is scheduled and all scheduled ones were fetched with an image, and is then the last one's; none is missing otherwise. |
| MissedHealthTransition.PolicyTransition.PushAppAndRecord | reconcilers/checkpoint_transition/nodehealth_transition.go:303-319 | Argo push, then sync, then the record: Completed if and only if the push succeeded, even if the sync failed. |
| MissedHealthTransition.PolicyTransition.TransitionStateful | reconcilers/checkpoint_transition/nodehealth_transition.go:245-319 | The effects of a stateful transition in order, and the log they leave. |
| MissedHealthTransition.PolicyTransition.TransitionOnMissedNodeHealth | reconcilers/checkpoint_transition/nodehealth_transition.go:151-343 | The effects of a call, and that exactly its records were appended to the log. |
| MissedHealthTransition.AtMostOneRecord | reconcilers/checkpoint_transition/nodehealth_transition.go:220-342 | A call appends at most one record, for its own package, Completed or Failed. |
| MissedHealthTransition.StatelessTransition | reconcilers/checkpoint_transition/nodehealth_transition.go:322-339 | A prepared stateless call pushes the app, syncs if the push succeeded, and leaves exactly one record, Completed if and only if the push succeeded; it clones and commits nothing. |
| MissedHealthTransition.NoEffectIff | reconcilers/checkpoint_transition/nodehealth_transition.go:151-343 | A call has no effect and leaves no record if and only if its preparations failed, the package type is unknown, or a stateful package has no usable checkpoint or its repository cannot be cloned. |
| MissedHealthTransition.StatefulSteps | reconcilers/checkpoint_transition/nodehealth_transition.go:245-319 | Every effect of a stateful call in its order, and what each depends on, for all outcomes of the external steps. |
| MissedHealthTransition.TwoUpdatesAtMost | reconcilers/checkpoint_transition/nodehealth_transition.go:260-268 | At most two manifests are being updated at any time. |
| MissedHealthTransition.StatefulRecord | reconcilers/checkpoint_transition/nodehealth_transition.go:218-320 | At most one record; only if a checkpoint and matches were found, every matched manifest can be updated and the commit was pushed, and then always unless a file that is to be written was matched twice; Completed if and only if the Argo app was pushed. |
| MissedHealthTransition.WorstSchedule | reconcilers/checkpoint_transition/nodehealth_transition.go:260-285 | With a file that is to be written matched twice, the interleaving of the updates that leaves no record. |
| MissedHealthTransition.StatefulRecordIff | reconcilers/checkpoint_transition/nodehealth_transition.go:218-320 | The record is left on every interleaving of the updates if and only if those conditions hold and no file that is to be written was matched twice. |
| MissedHealthTransition.PastCommit | reconcilers/checkpoint_transition/nodehealth_transition.go:245-301 | A transition gets past the commit only if there are matches, all updatable, and the commit was pushed, and then always unless a file that is to be written was matched twice. |
| MissedHealthTransition.StatefulShape | reconcilers/checkpoint_transition/nodehealth_transition.go:245-301 | A transition that gets past the commit pushed exactly the files with each distinct match updated once. |
| MissedHealthTransition.RecordOrder | reconcilers/checkpoint_transition/nodehealth_transition.go:263-319 | Whenever there is a record: clone, all updates, push of the updated files, Argo push came before it in that order. |
| MissedHealthTransition.PushedImagesDerive | reconcilers/checkpoint_transition/nodehealth_transition.go:236-298 | From a paired checkpoint, every image that differs in the pushed files was built on the image it replaced. |
| MissedHealthTransition.PushedImagesDeriveAlways | reconcilers/checkpoint_transition/nodehealth_transition.go:224-298 | The same for a pod whose containers run one image, whatever moment of whatever history of checkpoint runs the checkpoint was read at. |
| FailoverRun.ReportedMatches | reconcilers/gitaclient/gitea.go:131-136 | Whatever fails, every path a scan reports is that of a matching document. |
| FailoverRun.FrequentIsReported | reconcilers/gitaclient/gitea.go:76-192 | If nothing fails, a file with more than 100 matches is reported by every uncancelled scan, done arm or not. |
| FailoverRun.OnePathIsUpdated | reconcilers/checkpoint_transition/nodehealth_transition.go:245-320 | If all matches lie in one file, a Completed record means that the pushed files have its update, whatever schedule scan and updates took and whatever failed. |
| FailoverRun.StaleCompletion | reconcilers/gitaclient/gitea.go:184-192 | With two matching files: the schedule that ends with a Completed record and one of them untouched. |
| FailoverRun.CompletedMeansUpdatedIff | reconcilers/checkpoint_transition/nodehealth_transition.go:245-320 | Where nothing else goes wrong and the matches fit into `matchCh`, a Completed record means on every schedule that every matching manifest was updated if and only if all matches lie in one file. |
| Episodes.LongRunsStep | reconcilers/heartbeat/heartbeat_server.go:258-265 | An observation completes a long run exactly if it makes the trailing run that long. |
| Episodes.CountAllMeaning | reconcilers/heartbeat/heartbeat_server.go:242-266 | A miss counter's state is the trailing bad run, its flag whether that is long enough, its triggers the number of maximal long runs. |
| Episodes.QuietIffNeverInARow | reconcilers/heartbeat/heartbeat_server.go:258-265 | It never triggers if and only if the threshold number of misses never occurs in a row. |
| NodeDetector.HeartbeatStore.Update | reconcilers/heartbeat/heartbeat_server.go:57-63 | Stores the heartbeat under its node with the store's own time and a zero miss count. |
| NodeDetector.HeartbeatStore.All | reconcilers/heartbeat/heartbeat_server.go:72-80 | Every stored payload exactly once, in some order. |
| NodeDetector.NodeState.Look | reconcilers/heartbeat/heartbeat_server.go:243-266 | One look at a node, as a function of its state, the stored time and the two clock readings. |
| NodeDetector.NodeMonitor.LookAt | reconcilers/heartbeat/heartbeat_server.go:236-266 | The look changes this node's entry alone, creating it if needed. |
| NodeDetector.NodeMonitor.Tick | reconcilers/heartbeat/heartbeat_server.go:234-287 | A pass over a snapshot, ended by a failed machine listing. |
| NodeDetector.ProcessedPrefix | reconcilers/heartbeat/heartbeat_server.go:235-287 | After any part of a snapshot the loop has done to the nodes in it what the tick does to each alone. |
| NodeDetector.TickMeaning | reconcilers/heartbeat/heartbeat_server.go:72-80 | Whatever the map order, a tick stops if and only if some node aborts it, and otherwise gives the same states and declarations; a tick that stops declares some of these and no aborting node. |
| NodeDetector.OrderMatters | reconcilers/heartbeat/heartbeat_server.go:282-286 | With a node that aborts the tick and one that could be declared, two orders give different declarations. |
| NodeDetector.OrderIndependentIff | reconcilers/heartbeat/heartbeat_server.go:234-286 | What a tick declares, whether it stops, and the states it leaves to the next one are independent of the order if and only if no node aborts or every firing node's machines cannot be listed. |
| NodeHistory.TakeSnapshot | reconcilers/heartbeat/heartbeat_server.go:234-287 | A tick of the real store and monitor is the tick as a whole, or the end of the monitor if a listing fails. |
| NodeHistory.React | reconcilers/heartbeat/heartbeat_server.go:226-287 | What the monitor makes of the next event, running or stopped. |
| NodeHistory.Drive | reconcilers/heartbeat/heartbeat_server.go:226-287 | Store, monitor and declarations after any interleaving of heartbeats and ticks, machine listings failing or not. |
| NodeHistory.StoreHoldsLastBeat | reconcilers/heartbeat/heartbeat_server.go:57-70 | The store holds exactly the nodes that ever reported, each with its last heartbeat under the store's own time stamp. |
| NodeHistory.AskAfter | reconcilers/heartbeat/heartbeat_server.go:57-70 | Asking the store for a node after any history gives its last heartbeat, or none if it never reported. |
| NodeHistory.FiredIff | reconcilers/heartbeat/heartbeat_server.go:258-265 | An event finds a node unhealthy if and only if it is a snapshot at which the node's silence becomes thirteen snapshots long. |
| NodeHistory.WarmUpTickVanishes | reconcilers/heartbeat/heartbeat_server.go:226-232 | A tick of the first five seconds can be inserted into or deleted from any history without changing store, monitor or declarations. |
| NodeHistory.LaterTicksCount | reconcilers/heartbeat/heartbeat_server.go:234-266 | Every later tick looks at every node that ever reported: no misses after a heartbeat since the snapshot before, else one more, and unhealthy exactly at the thirteenth. |
| NodeHistory.StopsIff | reconcilers/heartbeat/heartbeat_server.go:282-286 | The monitor ends exactly at the first such snapshot of a node whose machines cannot be listed. |
| NodeHistory.SilentAfterStop | reconcilers/heartbeat/heartbeat_server.go:282-286 | After that nothing is declared any more. |
| NodeHistory.StoreAgreement | reconcilers/heartbeat/heartbeat_server.go:57-63 | Payloads carry their key, monitored nodes are stored, no node's last heartbeat is later than the stored one, and it is earlier if and only if a heartbeat arrived since the last snapshot. |
| NodeHistory.NodeTrace | reconcilers/heartbeat/heartbeat_server.go:235-266 | At every point the node's miss count, flag and number of declarations are those of the counting detector on its Fresh/Stale trace. |
| NodeHistory.DetectionStamp | reconcilers/heartbeat/heartbeat_server.go:252-264 | The detection time is the tick of the first miss of the silence, until the thirteenth re-stamps it. |
| NodeHistory.DeclaredOncePerEpisode | reconcilers/heartbeat/heartbeat_server.go:258-266 | Declarations equal the maximal silent runs of thirteen or more snapshots; there is none if and only if thirteen never occur in a row. |
| ControlPlaneDetector.ControlPlaneMonitor.OnTick | internal/controller/clusterpolicy_controller.go:1132-1218 | One tick, as a function of the state and the probe. |
| ControlPlaneDetector.ControlPlaneMonitor.Monitor | internal/controller/clusterpolicy_controller.go:1130-1223 | The loop over any trace of ticks. |
| ControlPlaneDetector.SkipsStutter | internal/controller/clusterpolicy_controller.go:1134-1148 | Deleting the ticks skipped for warm-up or a missing client changes nothing. |
| ControlPlaneDetector.IdleTraceIsSilent | internal/controller/clusterpolicy_controller.go:1115-1148 | A trace of ticks before five seconds or without a client leaves the start state. |
| ControlPlaneDetector.IdleTickVanishes | internal/controller/clusterpolicy_controller.go:1134-1148 | Such a tick can be inserted or deleted anywhere without changing anything. |
| ControlPlaneDetector.OtherTicksCount | internal/controller/clusterpolicy_controller.go:1150-1217 | The effect of every other tick, Ready or bad, on every part of the state: the third bad one in a row triggers, and migrates if the refreshed log is empty. |
| ControlPlaneDetector.DetectedPart | internal/controller/clusterpolicy_controller.go:1178-1186 | The detection time is the first bad check of the episode, then the third; set exactly while the miss count is positive. |
| ControlPlaneDetector.MigrationPart | internal/controller/clusterpolicy_controller.go:1202-1217 | The migration attempts are one for each episode whose third check saw the refreshed log empty. |
| ControlPlaneDetector.ControlPlaneTrace | internal/controller/clusterpolicy_controller.go:1121-1218 | On every trace: miss count is the trailing bad run, flag if and only if three or more, one trigger per long episode, migrations at most that, last heartbeat the last Ready probe. |
| CniDetector.CniMonitor.OnTick | internal/controller/clusterpolicy_controller.go:1292-1365 | One tick, as a function of the state and the probe. |
| CniDetector.CniMonitor.Monitor | internal/controller/clusterpolicy_controller.go:1290-1370 | The loop over any trace of ticks. |
| CniDetector.SkipsStutter | internal/controller/clusterpolicy_controller.go:1294-1309 | Deleting skipped ticks changes nothing; the silence clock runs on through them. |
| CniDetector.IdleTraceIsSilent | internal/controller/clusterpolicy_controller.go:1264-1309 | A trace of ticks before two seconds or without a client leaves the start state. |
| CniDetector.IdleTickVanishes | internal/controller/clusterpolicy_controller.go:1294-1309 | Such a tick can be inserted or deleted anywhere without changing anything. |
| CniDetector.OtherTicksCount | internal/controller/clusterpolicy_controller.go:1311-1365 | The effect of every other tick on every part of the state: the first bad one more than three seconds after the last Ready one triggers, and migrates if the refreshed log is empty. |
| CniDetector.CniTrace | internal/controller/clusterpolicy_controller.go:1261-1365 | On every trace: triggers are the first overdue checks of the episodes, TDetected the first bad check, migrations the triggers with an empty refreshed log. |
| CniDetector.OncePerEpisode | internal/controller/clusterpolicy_controller.go:1325-1339 | Between two triggers there is a Ready check. |
| CniDetector.NeverDetectsIff | internal/controller/clusterpolicy_controller.go:1333-1338 | It never triggers if and only if every bad check comes within three seconds of the last Ready check or startup. |
| CniDetector.DetectionTime | internal/controller/clusterpolicy_controller.go:1334-1340 | Under a clock that never runs backwards the detection time is not negative. |
| PolicyRace.StartedByReaders | internal/controller/clusterpolicy_controller.go:1202-1217 | Exactly the detections that read the policy's log before its first record start a migration, whichever monitor they are of. |
| PolicyRace.BothMigrate | internal/controller/clusterpolicy_controller.go:1351-1365 | A schedule on which both monitors migrate from the same empty log. |
| PolicyRace.AtMostOneMigrationIff | internal/controller/clusterpolicy_controller.go:1211-1217 | At most one migration starts from the empty log if and only if something is recorded before the log is read for the second time. |
| CronMirror.RemoveMirrors | internal/controller/checkpoint_controller.go:139-143 | Removing a key's job and its entry keeps table and entries inverse and every other job. |
| CronMirror.AddMirrors | internal/controller/checkpoint_controller.go:415-425 | Adding a fresh entry for a key without a job keeps table and entries inverse and every other job. |
| CronMirror.CheckpointReconciler.RemoveJob | internal/controller/checkpoint_controller.go:449-452 | The key's job is gone from table and cron, every other job stays. |
| CronMirror.CheckpointReconciler.InitializeScheduler | internal/controller/checkpoint_controller.go:300-304 | Creates scheduler and table once, without touching jobs. |
| CronMirror.CheckpointReconciler.ReconcileNormal | internal/controller/checkpoint_controller.go:402-425 | The key's job carries the new schedule, or there is none if the schedule is rejected. |
| CronMirror.CheckpointReconciler.Reconcile | internal/controller/checkpoint_controller.go:128-232 | The effect of one reconciliation on the jobs, for every way it can end. |
| CronMirror.Run | internal/controller/checkpoint_controller.go:136-146 | After any sequence of events the live entries are exactly the table's values, at most one per key, with the jobs the events call for. |
| CronMirror.LastEventDecides | internal/controller/checkpoint_controller.go:402-452 | A key has a job if and only if the last event that touched it scheduled it successfully, with that schedule. |
| CronMirror.NamesApart | internal/controller/checkpoint_controller.go:403-406 | Two checkpoints with slash-free namespaces never share a key. |
| MonitorRegistry.StartInv | internal/controller/clusterpolicy_controller.go:1230-1239 | A further start call keeps the registry invariant. |
| MonitorRegistry.MoveInv | internal/controller/clusterpolicy_controller.go:1090-1109 | So does every section under the mutex, and every spawn and exit. |
| MonitorRegistry.RunInv | internal/controller/clusterpolicy_controller.go:1090-1109 | And so does every interleaving of them. |
| MonitorRegistry.RegistryMirrorsMonitors | internal/controller/clusterpolicy_controller.go:1090-1109 | Never two live monitors per key, every live one registered, and outside the short windows the keys are exactly those watched. |
| MonitorRegistry.KeysCollideIff | internal/controller/clusterpolicy_controller.go:1237-1242 | Two monitors share a key if and only if they are the same or one's cluster is the other's plus `-cni`. |
| MonitorRegistry.RejectedByHolder | internal/controller/clusterpolicy_controller.go:1091-1096 | A start is rejected by the one thread that holds its key at that moment. |
| MonitorRegistry.NoClashNoExclusion | internal/controller/clusterpolicy_controller.go:1236-1259 | Without such a pair every start was rejected by a monitor of its own kind on its own cluster. |
| MonitorRegistry.Exclusion | internal/controller/clusterpolicy_controller.go:1238-1245 | A run in which the CNI monitor of a cluster rejects the control-plane monitor of another. |
| MonitorRegistry.KindsIndependentIff | internal/controller/clusterpolicy_controller.go:1236-1259 | The two kinds never exclude each other on any run if and only if no cluster is named like another plus `-cni`. |

## Left out

- Kubernetes, Gitea, MinIO, git, kubelet and `buildah`: each call is an outcome given as a parameter, its contents are not modelled.
- YAML text: parsing, printing, anchors and mappings with non-string keys; a file is a list of parsed documents or malformed.
- NodeDetector.NodeMonitor.Tick: reads the clock once for all triggers of a tick, where the code reads it once per trigger; whether a node's machines can be listed is fixed during a tick.
- CheckpointRun.Checkpoint.PerformCheckpoint: reads the clock once per run; only the value of `LastCheckpointTime` depends on it.
- CheckpointRun.Checkpoint.CheckpointContainer: leaves out the status message, pre-pulling the image and removing local copies, whose failures the code ignores.
- CheckpointRun.PairedThroughout: orders the runs of a checkpoint one after the other; a cron run and an immediate run sharing one object are not interleaved.
- CronMirror.CheckpointReconciler.ReconcileNormal: leaves out the immediate checkpoint that follows the first scheduling, as it does not touch the jobs; `Cron` stands for the cron library, which is not part of this model.
- CheckpointCreation.CreateCheckpoints: starts from the pod list, as a missing cluster client or a failing listing ends the call before it; nobody else creates checkpoints during the loop.
- FailoverRun.CompletedMeansUpdatedIff: is stated for at most 100 matches; with more, files that match often cannot be missed (`FrequentIsReported`), and which others can depends on their order and on the number of workers.  One direction, `OnePathIsUpdated`, holds without the bound.
- PolicyRace.StartedByReaders: a declared node migrates without reading the log; of this only the records are seen, as those of others.
- Dispatch.StepAdvances: appending a record and pushing the status is one atomic step; the unsynchronised append of several goroutines and the truncation of times to seconds by the API server are not modelled.
- BatchRewrite.StepInv: takes the file operations of a batch to succeed and the write that follows a truncation to be one step; a single update's failures are in `ImageRewrite.Checkout.UpdateResourceContainers`.
- The asynchronous commit of `TransitionSelectedLiveWorkloads` (internal/controller/clusterpolicy_controller.go:862-875): its Completed record does not imply that the commit was pushed, so ordering is stated for `TransitionOnMissedNodeHealth` only.
- The probes of control plane and CNI, and the preparation of the network test pods: a tick carries what the probe would say.
- What a migration attempt does (`triggerMigrationNodeCP`), beyond the sweep it starts for each live package: a policy lookup by cluster name.
- Selections such as the target repository, the lowest-weight cluster or the owner of a pod: they are parameters.
- `FindMatchingResource` and the other Gitea helpers, the NodeHealth objects, generated code, HTTP handlers, logging, credentials, and the recovery loop of recovery-flow.md.
