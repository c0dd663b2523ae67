# Verified model of the NFS-export CSI driver

The driver exports each volume through its own NFS server: a data PVC holds the data, a StatefulSet named after the volume serves it, a Service of the same name gives it an address, and every node mounts it either by a bind mount of the data volume's local path or over NFS.
CreateVolume makes the data PVC; NodePublishVolume makes what is missing of StatefulSet and Service and mounts; NodeUnpublishVolume unmounts and, when no pod uses the volume any more, deletes StatefulSet and Service; DeleteVolume is to remove the data PVC.
Any number of nodes run these calls at once, with no lock between them.

## How the model is built

- `Cluster.dfy` holds the shared state: PVCs (with every incarnation a name ever had), PVs, StatefulSets, Services, application pods, and the mount tables of the nodes.
- `NodeSteps.dfy` and `ControllerSteps.dfy` cut the four handlers at each access to that state. A handler in flight is a program counter with its locals; what the API server, the kernel and the clock answer to a step is an argument of the step.
- `System.dfy` puts any number of such handlers on one cluster, together with users, the provisioner and the garbage collector. A run is a sequence of events; the invariants are proved for all runs.
- `NodeServer.dfy`, `ControllerServer.dfy` and `ClientSet.dfy` are the handlers as imperative methods over objects whose tables change in place. Each is proved equal to its program of steps run alone, and `Alone.dfy` proves that an uninterrupted schedule of those steps is the same call.
- `Reading.dfy` says what a request is taken to say, key by key as the keys are spelt in requests and storage classes. `PublishSpec.dfy`, `UnpublishSpec.dfy` and `ControllerSpec.dfy` say what each of the four calls does, from the request as it is written to every table and the answer, in field names and literals alone: none of the helpers of the handlers occurs in them. The handlers are proved to meet them for all inputs.
- `Outcome.dfy` states the result of one whole publish call in a single declarative form, and proves that the steps add up to it. `Honesty.dfy`, `Retry.dfy` and `Undo.dfy` build on that form, and `Failures.dfy` gives a concrete input for each failure they describe (`Instances.dfy` holds the small volume it uses).
- `Safety.dfy`, `TeardownRace.dfy`, `Ownership.dfy`, `Races.dfy`, `Isolation.dfy`, `HonestRuns.dfy` and `EndToEnd.dfy` are about runs of the system.
- `Params.dfy`, `Naming.dfy`, `Agreement.dfy`, `Polling.dfy`, `SourceDir.dfy`, `VolumeLocks.dfy`, `Template.dfy`, `FoldedMap.dfy` and `ClaimLookup.dfy` are the parsing loops, the volume ID, the volume context, the polls and the helpers.

Assumptions about the surroundings: mount-point tests are exact, and the empty path is no mount point; a Kubernetes client refuses a request with an empty namespace or name; `Create` fails on an existing key; a new PVC gets a UID that no PVC has had; typed `Get` and `List` calls return an empty object when they fail. Each API, mount, probe and file-system call may otherwise fail or succeed freely.

## Where the code departs from its evident intent

The model follows the code. The intended property stands beside it, with the exact condition under which the code meets it.

| place | what happens | stated by | concrete input |
|---|---|---|---|
| nodeserver.go 354-428 | the NFS mount's error is lost in a block-local variable; the directory error is reported in its place | `OkWithoutMountIff`, `ErrorDespiteMountIff`, `AnswersAsIntendedIff`, `OkIsConfirmedOrLost` | `OkWithoutMount`, `ErrorDespiteMount` |
| nodeserver.go 332 | the bind mount drops `ro` | `ReadonlyHonouredIff` | `ReadonlyDropped` |
| nodeserver.go 320-325 | the `break`s do not end the search, so the last directory wins | `LastMatchAgreesIff` | `SecondDirectoryWins` |
| nodeserver.go 261-404 | a failed call that took the other path leaves its Service or its mount to the retry | `RetryConvergesIff` | `RetryLeavesService` |
| nodeserver.go 474-512 | scan and deletes are not one step | `RunIsSafeIff`, `TeardownSafety` | `WrittenTeardownIsUnsafe` |
| nodeserver.go 474 | the error of the pod list is dropped, so a failed list opens a teardown of an export in use | `ScanSeesIff` | `FailedListIsUnsafe`, from any safe state |
| nodeserver.go 462-466, 505-517 | errors of the PV list and of the deletes are swallowed: OK with the export left behind | `ExportLeftBehindIff`, `UndoneIff` | `ExportLeftBehind` |
| nodeserver.go 519-521 | the teardown waits for Running instead of the opposite | `TeardownWaitAgreesIff` | `TeardownWaitReturnsWhileRunning` |
| nodeserver.go 469 | a PV bound to no claim makes the teardown dereference nil | `UnpublishPanicsIff` | `UnpublishPanics` |
| controllerserver.go 182-183 | DeleteVolume reads keys that CreateVolume does not write | `DeleteRemovesClaimIff` | `DeleteAfterCreateChangesNothing`, for every created volume |
| controllerserver.go 91 | different names can share a volume ID | `VolumeIdsCollideIff` | `VolumeIdsCanCollide` |
| k8utils.go 121-131 | a failed search by UID answers with the last PVC listed | `LookupIsRightIff` | `LookupIsWrong` |
| nfsexport.go 107 | the volume locks are created and never used | `VolumeLocks.dfy`, on which nothing else relies | |

## Model

| member | source | states |
|---|---|---|
| PublishSpec.PublishMeetsSpec | pkg/nfsexport/nodeserver.go:50-441 | NodePublishVolume from the raw request on: a request that is malformed or says nothing acceptable is refused with InvalidArgument and no effect; any other one leaves exactly the StatefulSet, Service, mount, pod annotation and answer that belong to the place where it ends |
| PublishSpec.EndsSomewhere | pkg/nfsexport/nodeserver.go:110-416 | every call ends in one of the listed places |
| PublishSpec.EndsOnce | pkg/nfsexport/nodeserver.go:110-416 | and in one only |
| PublishSpec.MountOptionsAre | pkg/nfsexport/nodeserver.go:65-88 | a new NFS mount has the request's flags, `ro` if read-only, then the non-empty mount options of the context in visiting order, and nothing else; a bind mount has `bind` alone |
| PublishSpec.AnnotatesNamedPod | pkg/nfsexport/nodeserver.go:333-349 | no pod is touched but the one the request names, and that one in nothing but its deletion cost |
| UnpublishSpec.UnpublishMeetsSpec | pkg/nfsexport/nodeserver.go:444-537 | NodeUnpublishVolume: which mount, StatefulSet and Service go and what is answered, from the fields of the PV list, the pods' volumes and the attribute keys |
| UnpublishSpec.OtherPvsDoNotMatter | pkg/nfsexport/k8utils.go:134-147 | a PV of another volume, wherever it is listed, changes neither the answer nor the deletes of an unpublish |
| ControllerSpec.CreateMeetsSpec | pkg/nfsexport/controllerserver.go:45-167 | CreateVolume from the raw request on: the exact claim made, the exact context answered, and when the answer is a volume, Canceled or InvalidArgument |
| ControllerSpec.AnswerFollowsRequest | pkg/nfsexport/controllerserver.go:66-87 | an answered volume's claim lies in the namespace of the requesting PVC, has the class asked for, and its context carries the image and hosts asked for |
| ControllerSpec.DeleteMeetsSpec | pkg/nfsexport/controllerserver.go:170-192 | DeleteVolume: the claim that goes, from the attributes of the first PV with the handle |
| ControllerSpec.OtherPvsDoNotMatter | pkg/nfsexport/k8utils.go:134-147 | a PV of another volume changes neither the answer nor the delete of a DeleteVolume |
| Reading.ParsePublishIff | pkg/nfsexport/nodeserver.go:51-108 | a publish request is accepted with certain arguments exactly when it is well-formed and its flags and keys, spelt in any casing, say them |
| Reading.ParseStorageIff | pkg/nfsexport/controllerserver.go:63-87 | CreateVolume parameters are accepted exactly when all keys are known, with the values of the last entry of each key |
| Reading.ClassifyIff | pkg/nfsexport/nodeserver.go:73-99 | which spelling feeds which of the twelve parameters |
| Reading.ParseOctalIff | pkg/nfsexport/nodeserver.go:89-95 | the numerals read as a number are exactly its octal numerals with leading zeros, up to 32 bits |
| Reading.EqualUpToCaseIff | pkg/nfsexport/utils.go:173 | two keys match exactly when they differ only in the case of ASCII letters |
| Safety.TeardownSafety | pkg/nfsexport/nodeserver.go:120-516 | over every interleaving: if pods stay listed while published or mounted, owners are kept, scans list successfully with a current PV, and no publish passes its StatefulSet check inside a teardown window of its export, then every mount and every publish past its check has its StatefulSet, and every NFS mount its Service, in every state |
| Safety.AtomicTeardownIsSafe | pkg/nfsexport/nodeserver.go:468-516 | the same with scan and deletes taken as one step |
| Safety.RunIsSafeIff | pkg/nfsexport/nodeserver.go:468-516 | a run of the code as written is safe in every state exactly when none of its deletes or collections gets through on an object that has a user |
| Safety.EventIsSafeIff | pkg/nfsexport/nodeserver.go:505-512 | the one-event form of that condition, over all events of the system |
| Safety.UnpublishStepIsSafeIff | pkg/nfsexport/nodeserver.go:505-512 | a teardown step breaks safety exactly when its delete gets through on an object in use |
| Safety.PublishStepIsSafe | pkg/nfsexport/nodeserver.go:120-416 | no publish step takes anything away from another user, and a publish relies only on what is there |
| Safety.ScanSeesIff | pkg/nfsexport/nodeserver.go:473-483 | with a current PV and a listed pod on its claim, the scan ends the teardown exactly when its pod list succeeds |
| Safety.FailedListIsUnsafe | pkg/nfsexport/nodeserver.go:474-512 | from any safe state, a teardown whose pod list fails and whose delete gets through takes a StatefulSet from its users, with no other call interfering |
| TeardownRace.WrittenTeardownIsUnsafe | pkg/nfsexport/nodeserver.go:474-512 | a concrete run, well-behaved in everything but the window, in which a publish has answered OK, its mount is live and its StatefulSet is gone |
| EndToEnd.MountsPointAtTheirService | pkg/nfsexport/nodeserver.go:354-415 | in every run in which no delete hits an object in use, every NFS mount on every node, and every publish on its way to one, goes to the address of the Service of its own volume |
| EndToEnd.ExportServesTheCreatedClaim | pkg/nfsexport/nodeserver.go:127-252 | the StatefulSet a first publish makes after a successful CreateVolume serves the created claim, owned by its UID, with the image and allowed hosts of the StorageClass |
| Ownership.OwnershipInvariant | pkg/nfsexport/nodeserver.go:111-141 | in every reachable state each driver-made StatefulSet and Service is named and labelled by its volume ID and owned by a UID that the named data PVC once had |
| Ownership.DeadStaysDead | pkg/nfsexport/nodeserver.go:133-140 | an incarnation that is gone is gone in every continuation |
| Ownership.NothingOutlivesItsClaim | pkg/nfsexport/nodeserver.go:359-373 | whatever a dead incarnation owns can be collected at every later moment, and collecting it leaves none |
| Ownership.CollectableIffOwnerDead | pkg/nfsexport/nodeserver.go:133-140 | in reachable states the collector may take exactly the objects whose owning incarnation existed and is gone |
| Races.CreatesAndDeletesBalance | pkg/nfsexport/nodeserver.go:120-257 | over whole runs of racing calls, for StatefulSets, Services and data PVCs: creates that got through minus deletes equals the change in presence of the name, and every other create was answered Canceled and changed nothing |
| Races.OneCreateWins | pkg/nfsexport/nodeserver.go:252-256 | of any number of creates of a missing object, as many get through as there are deletes, and one more exactly when the object is there at the end; all the others are answered Canceled |
| Races.EventOnObjects | pkg/nfsexport/nodeserver.go:354-403 | per event: a winning create fills its name, a delete empties it, no object of the three kinds is altered, and a create that does not win is answered Canceled without effect |
| Races.AnsweredVolumeIsHere | pkg/nfsexport/controllerserver.go:144-166 | in every run, a volume that CreateVolume has answered has its data PVC, under the name and namespace of its context, for as long as no delete of it gets through |
| Races.CanceledHasNotMounted | pkg/nfsexport/nodeserver.go:266-413 | a publish that answers Canceled has changed no mount table in the whole run |
| Isolation.NonInterference | pkg/nfsexport/nodeserver.go:117-119 | over whole runs, calls on other volumes leave a volume's StatefulSet and Service alone, and calls with other targets leave a mount alone |
| Isolation.DataIsConserved | pkg/nfsexport/nodeserver.go:110-115 | no run of publish and unpublish steps creates, deletes or alters a data PVC or a PV |
| Isolation.ClaimsAreNeverRewritten | pkg/nfsexport/controllerserver.go:144-150 | in any run a claim keeps its contents unless it is deleted and made anew under another UID |
| Retry.RetryConvergesIff | pkg/nfsexport/nodeserver.go:120-441 | after any number of earlier calls, whatever they met and answered: one call under good conditions completes the tables, a second one changes nothing more and answers OK (the first too except over NFS with an unreadable pod directory), and the tables are those of one uninterrupted call exactly when each earlier call made and mounted only what the good call would have at that point |
| Retry.RetryConverges | pkg/nfsexport/nodeserver.go:261-276 | that condition is met, and so retrying converges, when each earlier call stopped before it chose a source, whatever backend pod it read (none, another one), or failed later with the good call's backend pod, directories and Service address |
| Retry.GoalsAgreeIff | pkg/nfsexport/nodeserver.go:278-416 | a call, whatever fails in it, leaves the tables still to be reached unchanged exactly when what it made and mounted is what the good call would have |
| Retry.CallNeverGoesBack | pkg/nfsexport/nodeserver.go:120-441 | no call, whatever fails in it, removes or alters a StatefulSet, Service or mount, or touches another volume |
| Retry.CallKeepsGoal | pkg/nfsexport/nodeserver.go:120-441 | a call with the good call's backend pod, directories and address leaves the tables still to be reached unchanged, wherever it stops |
| Retry.HealthyCallReachesGoal | pkg/nfsexport/nodeserver.go:120-441 | one call under good conditions completes StatefulSet, Service and mount, and answers OK exactly when the target was mounted, the path is local or the pod directory is readable |
| Retry.RetryAfterOtherViewIff | pkg/nfsexport/nodeserver.go:261-332 | the same exact condition for one earlier call |
| Retry.IdenticalRequests | pkg/nfsexport/nodeserver.go:73-99 | a request repeated with its context visited in another order is the same call |
| Outcome.PublishOutcome | pkg/nfsexport/nodeserver.go:110-440 | every table and the answer after one whole publish call, by conditions on the state before it and the answers of the world |
| Honesty.OkWithoutMountIff | pkg/nfsexport/nodeserver.go:354-428 | OK is answered with nothing mounted exactly when the NFS mount fails, the pod directory was readable and chmod does not fail |
| Honesty.ErrorDespiteMountIff | pkg/nfsexport/nodeserver.go:303-434 | an error is answered for a mount just made exactly when chmod fails or, over NFS, the pod directory was unreadable |
| Honesty.OkMeansMountedLocally | pkg/nfsexport/nodeserver.go:278-332 | on the already-mounted path and on the bind path OK implies mounted |
| Honesty.IntendedAnswerIsHonest | pkg/nfsexport/nodeserver.go:415-428 | reporting the mount's own error would make every OK imply mounted |
| Honesty.AnswersAsIntendedIff | pkg/nfsexport/nodeserver.go:354-428 | the code answers as intended exactly when the NFS mount is not reached, directory and mount give the same error, or a failing chmod hides the difference |
| Honesty.ReadonlyHonouredIff | pkg/nfsexport/nodeserver.go:65-68 | a read-only request that mounts is mounted with `ro` exactly when it does not take the bind path |
| HonestRuns.OkIsConfirmedOrLost | pkg/nfsexport/nodeserver.go:278-441 | in every interleaving, a publish that answers OK has mounted its target or found it mounted, or has lost the error of its NFS mount: exactly one of the two |
| Undo.UnpublishUndoesPublish | pkg/nfsexport/nodeserver.go:454-516 | from a clean cluster, any publish calls on a target, then any change of pods, then an unpublish that gets through: with no pod on the claim everything is restored, with one the export stays |
| Undo.UndoneIff | pkg/nfsexport/nodeserver.go:454-516 | once publish calls from a clean cluster have made the StatefulSet, an unpublish restores the cluster exactly when its unmount is clean, it finds the bound PV, sees no pod on the claim, works in the publish's namespace, and its deletes get through; the pod being unpublished counts for as long as it is listed |
| Undo.UnpublishOutcome | pkg/nfsexport/nodeserver.go:444-537 | every table and the answer after one whole unpublish call, for all requests and environments |
| Undo.ExportLeftBehindIff | pkg/nfsexport/nodeserver.go:462-517 | an answer of OK leaves StatefulSet or Service behind exactly when the PV list failed or the PV was gone, a pod was seen, the attributes named another namespace, or that delete failed |
| Undo.UnpublishPanicsIff | pkg/nfsexport/nodeserver.go:462-470 | the handler dereferences a nil claim reference exactly when it gets past the unmount and finds a PV bound to no claim |
| Undo.UnpublishIsIdempotent | pkg/nfsexport/nodeserver.go:444-537 | repeating any unpublish in the same environment changes nothing and gives the same answer |
| Undo.UnpublishRetry | pkg/nfsexport/nodeserver.go:454-459 | a retry after a failed unmount ends as if the failed call had not been made |
| Alone.PublishAloneIsTheCall | pkg/nfsexport/nodeserver.go:110-441 | from any program point, scheduling a publish without interruption gives the state and answer of the sequential call |
| Alone.RequestAloneIsTheCall | pkg/nfsexport/nodeserver.go:50-441 | the same from the request on: a request that parses is admitted, and started and left alone ends as the whole call |
| Alone.UnpublishAloneIsTheCall | pkg/nfsexport/nodeserver.go:454-537 | the same for an unpublish from any program point |
| Alone.UnpublishRequestAloneIsTheCall | pkg/nfsexport/nodeserver.go:444-537 | the same for an unpublish from the request on |
| Alone.CreateAloneIsTheCall | pkg/nfsexport/controllerserver.go:45-167 | the same for a CreateVolume request |
| Alone.DeleteAloneIsTheCall | pkg/nfsexport/controllerserver.go:170-192 | the same for a DeleteVolume request |
| NodeServers.NodeServer.NodePublishVolume | pkg/nfsexport/nodeserver.go:50-441 | the imperative handler changes the tables and answers exactly as its program of steps |
| NodeServers.NodeServer.EnsureStatefulSet | pkg/nfsexport/nodeserver.go:120-257 | get-or-create of the StatefulSet, any read error leading to a create: when it succeeds, which StatefulSet is there afterwards, that nothing else changed, and that the finished calls agree |
| NodeServers.NodeServer.PublishAtTarget | pkg/nfsexport/nodeserver.go:278-331 | target test and choice of the source |
| NodeServers.NodeServer.PublishLocally | pkg/nfsexport/nodeserver.go:332-351 | bind mount and deletion-cost annotation |
| NodeServers.NodeServer.PublishOverNfs | pkg/nfsexport/nodeserver.go:352-416 | Service, wait for the port and NFS mount, reporting the outer error |
| NodeServers.NodeServer.EnsureService | pkg/nfsexport/nodeserver.go:354-404 | get-or-create of the Service: when it succeeds, which Service is there afterwards, that its address is the one returned, that nothing else changed, and that the finished calls agree |
| NodeServers.NodeServer.ReportResult | pkg/nfsexport/nodeserver.go:420-440 | mapping of the reported error and of the chmod |
| NodeServers.NodeServer.NodeUnpublishVolume | pkg/nfsexport/nodeserver.go:444-537 | the imperative handler changes the tables and answers exactly as its program of steps |
| NodeServers.NodeServer.ScanPods | pkg/nfsexport/nodeserver.go:474-482 | the scan finds a user exactly when the list succeeds and some pod of the namespace has a volume on the claim |
| NodeServers.NodeServer.TearDown | pkg/nfsexport/nodeserver.go:498-536 | both deletes, their errors ignored, and the wait whose result is dropped |
| ControllerServers.ControllerServer.CreateVolume | pkg/nfsexport/controllerserver.go:45-167 | the imperative handler changes the PVC table and answers exactly as its program of steps |
| ControllerServers.ControllerServer.Prepare | pkg/nfsexport/controllerserver.go:91-111 | default class looked up only when none is given, first match first, and default image |
| ControllerServers.ControllerServer.EnsureDataPvc | pkg/nfsexport/controllerserver.go:144-166 | get-or-create of the data PVC |
| ControllerServers.ControllerServer.DeleteVolume | pkg/nfsexport/controllerserver.go:170-192 | the imperative handler with the keys it reads |
| ControllerSteps.CreateCallEffect | pkg/nfsexport/controllerserver.go:45-167 | a refusal changes nothing; an answered volume has its data PVC, made if it was missing and otherwise untouched, and names it in its context |
| ControllerSteps.CreateIsIdempotent | pkg/nfsexport/controllerserver.go:144-166 | repeating one request any number of times, in any environments and visiting orders, makes at most one claim, never changes it, and gives every success the same ID and context; after one success every later call that can read the claim gives that same answer, and any other is Canceled |
| ControllerSteps.CreateSucceedsIff | pkg/nfsexport/controllerserver.go:144-166 | a request that passes the checks is answered with a volume exactly when its claim is there and can be read or is missing and can be made; otherwise it is Canceled |
| Agreement.ReadBack | pkg/nfsexport/controllerserver.go:159-164 | each written parameter is read back from any map that carries the context, in every visiting order |
| Agreement.PublishReadsWhatCreateWrote | pkg/nfsexport/nodeserver.go:73-105 | after a successful create, the publish parser finds exactly the data PVC and namespace that were created |
| Agreement.UnpublishReadsWhatCreateWrote | pkg/nfsexport/nodeserver.go:490-497 | the teardown parser finds the namespace that was used |
| Agreement.DeleteCallEffect | pkg/nfsexport/controllerserver.go:170-192 | what a DeleteVolume removes, for any pair of keys it may read |
| Agreement.DeleteRemovesClaimIff | pkg/nfsexport/controllerserver.go:182-186 | the code removes the created claim exactly when its name and namespace stand under the two keys it reads |
| Agreement.DeleteAfterCreateChangesNothing | pkg/nfsexport/controllerserver.go:170-192 | DeleteVolume of a created volume answers OK and changes nothing, unless others have added both keys it reads to the context CreateVolume answered |
| Agreement.DeleteWithWrittenKeys | pkg/nfsexport/controllerserver.go:159-186 | reading the written keys, it would remove exactly the created claim |
| Naming.VolumeIdCharacters | pkg/nfsexport/controllerserver.go:91 | the rewrite keeps the length, writes over the first occurrence and touches nothing else |
| Naming.VolumeIdIff | pkg/nfsexport/controllerserver.go:91 | the volume ID is the name with the first `pvc-`, if any, replaced by `nfs-` |
| Naming.VolumeIdInjective | pkg/nfsexport/controllerserver.go:91-93 | injective on names with the first occurrence at the same offset |
| Naming.VolumeIdInjectiveOnPvcNames | pkg/nfsexport/controllerserver.go:91-93 | injective on names that start with the prefix |
| Naming.VolumeIdsCollideIff | pkg/nfsexport/controllerserver.go:91-93 | names with different first offsets share a volume ID exactly when they have the same length, each has a literal `nfs-` where the other is rewritten, and they agree everywhere else |
| Naming.VolumeIdsCanCollide | pkg/nfsexport/controllerserver.go:91-93 | two concrete names with one volume ID |
| Params.ReadContext | pkg/nfsexport/nodeserver.go:73-99 | the loop leaves in each local the value of the last entry for its key, collects the mount options, and fails on any malformed permissions |
| Params.ParsePublishRequest | pkg/nfsexport/nodeserver.go:51-108 | the checks and defaults of a publish request |
| Params.ParseAttributes | pkg/nfsexport/nodeserver.go:490-497 | the teardown's loop over the volume attributes |
| Params.ParseStorageParams | pkg/nfsexport/controllerserver.go:63-87 | the loop over the StorageClass parameters, failing on any unknown key |
| Params.PublishParseOrderFree | pkg/nfsexport/nodeserver.go:73-108 | with keys unique up to case every visiting order gives one record or one error code |
| Params.StorageParseOrderFree | pkg/nfsexport/controllerserver.go:63-87 | the same for CreateVolume |
| Params.LastValueOrderFree | pkg/nfsexport/nodeserver.go:490-497 | the same for each single parameter, as the teardown reads it |
| Params.OrderMattersWithTwoSpellings | pkg/nfsexport/nodeserver.go:73-82 | two spellings of one key make the order decide |
| Polling.PollImmediate | pkg/nfsexport/k8utils.go:85-91 | polling ends within the checks that fit before the timeout, at the first decisive one, with its verdict |
| Polling.WaitForRunningSucceedsIff | pkg/nfsexport/k8utils.go:49-64 | success exactly when Running is seen before any read error or completed phase |
| Polling.WaitForRunningIff | pkg/nfsexport/k8utils.go:49-64 | the first phase other than Pending and Unknown decides: success, read error or completed pod; without one it times out |
| Polling.WaitForTcpSucceedsIff | pkg/nfsexport/k8utils.go:93-113 | success exactly when a probe succeeds before any probe error |
| Polling.WaitForTcpIff | pkg/nfsexport/k8utils.go:93-113 | the first probe that does not merely fail decides: success or probe error; without one it times out |
| Polling.WaitForNotRunningStops | pkg/nfsexport/k8utils.go:66-81 | never stops on an observed Running phase; success exactly on a pod that left Running without completing |
| Polling.TeardownWaitAgreesIff | pkg/nfsexport/nodeserver.go:519-521 | the written and the intended wait stop at the same check exactly when the first observation is an error or a completed phase, or there is none |
| Polling.TeardownWaitReturnsWhileRunning | pkg/nfsexport/nodeserver.go:519-521 | a pod still Running ends the written wait at once |
| SourceDir.FindSource | pkg/nfsexport/nodeserver.go:301-328 | the loop over the plugin directories |
| SourceDir.SourceIsLastKept | pkg/nfsexport/nodeserver.go:307-327 | the last directory that is not skipped decides, with `/mount` for the CSI plugin |
| SourceDir.SourceIsEmptyIff | pkg/nfsexport/nodeserver.go:301-328 | no source exactly when every directory is skipped |
| SourceDir.LastMatchAgreesIff | pkg/nfsexport/nodeserver.go:320-325 | agreement with a first-match search exactly when one single entry is not skipped |
| VolumeLocking.VolumeLocks.TryAcquire | pkg/nfsexport/utils.go:113-121 | succeeds exactly on a free ID, which is then locked |
| VolumeLocking.VolumeLocks.Release | pkg/nfsexport/utils.go:123-127 | frees the ID |
| VolumeLocking.RunsRefineAtomicSet | pkg/nfsexport/utils.go:102-127 | every interleaving of the micro-steps of any number of callers is a run of an atomic set with the same answers |
| VolumeLocking.OneHolderPerId | pkg/nfsexport/utils.go:113-127 | if only holders release, an ID is locked exactly when it has a holder, and it has one at most |
| VolumeLocking.TwoHoldersWithoutDiscipline | pkg/nfsexport/utils.go:123-127 | a release by somebody else lets an ID have two holders |
| VolumeLocking.IdsAreIndependent | pkg/nfsexport/utils.go:113-127 | calls on other IDs neither lock nor free an ID |
| Template.ReplaceWithMap | pkg/nfsexport/utils.go:187-194 | the loop applies one replacement per non-empty key in visiting order |
| Template.ReplaceAllIs | pkg/nfsexport/utils.go:190 | text up to the first occurrence stays, the occurrence is replaced, and the rest is treated likewise |
| Template.EmptyKeysAreSkipped | pkg/nfsexport/utils.go:189 | an entry with the empty key might as well not be there |
| Template.SubstitutionIsOrderFree | pkg/nfsexport/utils.go:187-194 | on templates of `$`-free text and tokens, with token keys and `$`-free values, every order gives the one simultaneous substitution |
| Template.ReplaceFillsPieces | pkg/nfsexport/utils.go:190 | replacing a token in the text fills exactly the pieces that are that token |
| Template.OrderMattersWithTokenValues | pkg/nfsexport/utils.go:187-194 | a value that contains a token makes the order decide |
| FoldedMaps.SetKeyValueInMap | pkg/nfsexport/utils.go:168-179 | writes the first matching key, else the given one, and nothing on nil |
| FoldedMaps.FirstMatchDecides | pkg/nfsexport/utils.go:172-178 | on any map, the first visited key that matches is written, the given one only when none matches |
| FoldedMaps.SetKeepsUniqueness | pkg/nfsexport/utils.go:166-179 | uniqueness up to case survives, only the matching entry changes, in every visiting order alike |
| FoldedMaps.GetMountOptions | pkg/nfsexport/utils.go:130-138 | the first visited mount-options entry, or empty |
| FoldedMaps.FirstMountOptionsDecide | pkg/nfsexport/utils.go:130-138 | on any map, the first visited entry under the key in any casing is returned |
| FoldedMaps.GetReturnsWhatWasSet | pkg/nfsexport/utils.go:130-179 | a value set under any casing of the key is the value returned |
| FoldedMaps.OtherKeysKeepMountOptions | pkg/nfsexport/utils.go:130-179 | setting another key leaves the mount options alone |
| Clients.ClientSet.GetPvById | pkg/nfsexport/k8utils.go:134-147 | the first listed PV whose CSI handle is the ID; nothing when the list fails or no handle is the ID |
| Cluster.PvByIdIff | pkg/nfsexport/k8utils.go:140-146 | the converse: a PV that is the first with the handle is the answer |
| Cluster.PvByIdPassesOthers | pkg/nfsexport/k8utils.go:140-146 | PVs with other handles may be listed anywhere |
| Clients.ClientSet.ListPods | pkg/nfsexport/nodeserver.go:474 | exactly the pods of the namespace, or none when the list fails |
| ClaimLookup.GetPvcByUidStr | pkg/nfsexport/k8utils.go:116-132 | the claim in hand when the loop ends |
| ClaimLookup.PvcByUidIs | pkg/nfsexport/k8utils.go:116-132 | the first claim with the UID, or else the last one listed, unless that has no name |
| ClaimLookup.LookupIsRightIff | pkg/nfsexport/k8utils.go:121-131 | right exactly when some listed claim has the UID or nothing is listed, and otherwise the last claim listed |
| Failures.OkWithoutMount | pkg/nfsexport/nodeserver.go:415-428 | a concrete call that answers OK with nothing mounted |
| Failures.ErrorDespiteMount | pkg/nfsexport/nodeserver.go:303-434 | a concrete call that mounts and answers an error |
| Failures.ReadonlyDropped | pkg/nfsexport/nodeserver.go:332 | a concrete read-only request that is bind-mounted writable |
| Failures.SecondDirectoryWins | pkg/nfsexport/nodeserver.go:320-325 | two directories of which the second is taken |
| Failures.RetryLeavesService | pkg/nfsexport/nodeserver.go:354-404 | a concrete failed call over NFS and a local retry, with a Service left over |
| Failures.ExportLeftBehind | pkg/nfsexport/nodeserver.go:505-512 | a concrete unpublish that answers OK and leaves the StatefulSet |
| Failures.UnpublishPanics | pkg/nfsexport/nodeserver.go:469 | a concrete PV that makes the handler panic |
| Failures.LookupIsWrong | pkg/nfsexport/k8utils.go:121-131 | a concrete search that answers with a claim under another UID |

## Left out

- Common.Lower: folds ASCII letters only, and input keys are taken to be ASCII; Go also folds U+0130, U+212A and U+017F onto ASCII letters, so a key spelt with one of these can match a parameter in the driver and not in the model.
- Ownership.NothingOutlivesItsClaim: says that a collection is possible and what it leaves, not that the collector runs in time, because its schedule is not part of the driver.
- Time: a poll is the sequence of observations that fit before its timeout; seconds are not counted.
- Annotating the application pod is one step; the update conflict between its read and its write is a failed annotation.
- Stacked mounts at one target: a mount table has one entry per path, the topmost.
- CleanupMountPoint is clean, or failed with or without the unmount; its directory handling is not modelled.
- Ports, probes, capabilities, replica counts and other fixed parts of the StatefulSet and Service.
- The StatefulSet controller, kubelet, CNI, NFS server and TCP probe: their effects are answers of the world.
- gRPC server, sockets, logging, identity and capability replies.
- NodeGetVolumeStats, ValidateVolumeCapabilities, the unimplemented RPCs, ParseEndpoint, getLogLevel, chmodIfPermissionMismatch, getServerFromSource, dirExists and IsCorruptedDir: straight-line code that would add only easy members.
- Shell scripts, images, charts and end-to-end tests.
