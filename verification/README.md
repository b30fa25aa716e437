# Volume lifecycle of the CSI alcub driver

The driver provisions Ceph images as volumes and attaches them to nodes. Several processes take
part: replicas of the controller and one plugin on every node. They share an API server that holds
versioned `CsiAlcub` records, and a Ceph cluster that holds the images; each process has its own
index from volume ids to names and a cache that may be out of date. `CreateVolume`, `DeleteVolume`,
`NodePublishVolume`, `NodeUnpublishVolume` and the reconcilers interleave, fail part way and
compensate. This project models that machinery and proves what holds over every run of it.

## How the model is laid out

| file | what it holds |
|---|---|
| `Records.dfy` | the API server: exclusive create, compare-and-swap update, finalizers, stale reads |
| `StorageClass.dfy` | storage-class parsing as a fold over an unspecified order, secrets, sizes |
| `Parameters.dfy` | what a storage class means key by key, and exactly which classes are accepted |
| `Lifecycle.dfy` | the machine: every effect of every call as one step, and runs of steps |
| `Soundness.dfy` | the invariant that needs no hypothesis |
| `Ownership.dfy` | the invariant about images and records, under three rules |
| `Guarantees.dfy` | what controllers guarantee over every run |
| `NodeSafety.dfy`, `Copies.dfy` | what nodes guarantee about devices and mounts; what their copies of records are |
| `HolderStatus.dfy`, `PrenodeHistory.dfy`, `Admission.dfy` | who holds a volume; exactly when `Prenode` is true; who may unpublish |
| `Calls.dfy`, `NodeCalls.dfy`, `Compensation.dfy` | whole calls, exactly how they end, and retries |
| `Counterexamples.dfy`, `NodeCounterexamples.dfy` | runs that break one rule, or meet one lost reply, and lose a guarantee |
| `Cluster.dfy`, `Rbd.dfy`, `Manager.dfy`, `Controller.dfy`, `NodeService.dfy` | the code's own objects and loops |
| `NodeLabels.dfy` | the node label reconciler |

A step of the machine is one effect of one call. Everything the driver does not decide (what a
stale read returns, in which order a map is iterated, how another service answers, when a process
dies) is written in the step's label, so a run is a sequence of labels and a theorem over all runs
covers all of it. A service answers `Done`, `Refused` (no effect, an error) or `Lost` (an effect, and
still an error).

The classes hold the code's mutable state. Each method carries the machine state at its start as a
ghost argument and promises that the services and its own index end exactly where the machine's
steps for that call lead (`Tracks(CreateRun(...))`, `Tracks(PublishRun(...))` and so on). The scripts
are proved to be runs (`CreateRunIsStretch`, `StretchIsRun`, `PublishRunIsRun`), so what holds over all
runs holds of the methods.

## Hypotheses

They are predicates on the steps of a run, and each theorem names the ones it needs.

- `Rules`, for images and records: no create of a name starts after a `DeleteVolume` has resolved that
  name, and none is in flight then; a record create that reports an error made no record. Generated
  ids are new in every run. `NameReuseConfusesVolumes` and `LostReplyLosesTheImage` are runs that break
  one of these and lose the guarantee.
- `ClassesAgree`: the keys of a storage class that mean the pool carry one value. It follows from keys
  that stay distinct after lower-casing (`DistinctTagsAgree`); `PoolIgnoresOrderIff` shows that it is exactly
  what is needed.
  Storage classes do not change.
- `NodeRules`, for mounts: on one node, calls on one volume do not overlap, and checking the target of a
  mounted volume does not fail during publish. `MountsStayConnectedIff` says exactly which steps do damage,
  whatever overlaps. `OverlapStrandsTheMount` is a run that breaks the first half and loses the guarantee;
  `FailedCheckDisconnectsMounted` and `RepeatedPublishStrandsTheMount` concern the second.
- `Serialised`, for `Prenode` and for who may unpublish: node calls on one volume do not overlap on any
  nodes, and each reads the record as it is. The second half goes beyond non-overlap: the code reads through
  a cache (`pkg/manager/alcubManage.go:201-215`), which may lag behind the previous call. The status is then
  overwritten from a copy that is too old, in runs without any overlap: in `StaleUnpublishBlanksTheHolder` a
  node that lost the volume unpublishes it and the record forgets the holder, and in
  `StalePublishLosesThePrenode` the `Prenode` is wiped out. What holds without `Serialised` is said exactly:
  `PrenodeKeptIff` and `PrenodeKeptThroughoutIff` for a `Prenode` that is set, `PrenodeIsFirstHolderIff` for the
  first holder, and `HolderBlankedIff` for a holder that is forgotten.
- `NoNodeSuccess`, for the holder that stays: no node call on the volume succeeds, and no status write
  takes effect while its reply is lost. `FailedWriteKeepsStatusIff` says exactly when a failing call changes
  the status, and in `LostReplyEndsTheRetries` the holder's unpublish fails, the record no longer names it,
  and its retry is refused.

Built into the machine: records are removed only by the driver; connecting needs the image; a
connection is a watcher of the image; checking for watchers and removing an image is one step; a
mount that reports an error has not mounted; there is one target path per volume and node; the
retries around a record write never read again and so are one attempt, which `RetryIsFutile` justifies.
Node names, names of volumes and generated ids are not empty. A node update is tried five times, the
default of the retry helper it uses, which is not part of this model.

## Where code and documentation differ

`doc/csi-paper.md:29` asks for every call to be idempotent. The code is followed, and falls short twice.
A further `NodeUnpublishVolume` after one that cleared the record is refused, whether or not the first was
told that it succeeded (`FurtherUnpublishIsRefused`). A `CreateVolume` whose image was left behind, because its
rollback was refused (`RefusedRollbackLeavesTheImage`), its image reply was lost or its process died, blocks its
name for ever: no later create of that name in that class can get past its image step
(`LeakBlocksTheName`). A repeated publish, delete or holder's unpublish does converge.

## Model

| member | source | states |
|---|---|---|
| Records.UpdateReadTheCurrentVersion | pkg/manager/alcubManage.go:217-239 | an update succeeds only if the copy it was based on, however stale it may have been, is the record stored now |
| Records.StatusWrite | pkg/manager/alcubManage.go:226-238 | a successful status write replaces just the status of the very version that was read, or stores nothing new |
| Records.FinalizerStrip | pkg/manager/alcubManage.go:98-108 | a successful finalizer strip removes exactly the record that was checked, in the version that was checked |
| Soundness.NextSound | pkg/manager/alcubManage.go:81-172 | every step keeps identities consistent: specs, calls in flight, indexes and answers all agree on which id was generated for which name, and a call about to strip a finalizer holds an unheld terminating version |
| Soundness.RunSound | pkg/manager/alcubManage.go:81-172 | that invariant holds after every run, with stale reads, failures, lost replies, crashes and name reuse |
| Ownership.NextOrderly | pkg/controlrpc/controller.go:103-199 | every permitted step keeps: each image has one owner, each record its image, specs never change, a call past its own image create alone answers for its image |
| Ownership.RunOrderly | pkg/controlrpc/controller.go:103-199 | that invariant holds after every permitted run of any number of interleaved calls |
| Ownership.ResolvesDeclared | pkg/rbd/rbd.go:203-227 | whenever creating or deleting an image resolves the class at all, it resolves to the one declared pool |
| Guarantees.RecordLeavesUnheld | pkg/manager/alcubManage.go:86-109 | in any run, a step that makes a record disappear is a finalizer strip on its stored version, which is terminating and names no node |
| Guarantees.IndexesAgree | pkg/manager/alcubManage.go:301-313 | in any run, two processes that both index an id map it to the same name |
| Guarantees.RetryIsFutile | pkg/manager/alcubManage.go:100-107 | once a compare-and-swap has failed, the same write fails after whatever steps follow |
| Guarantees.OneIdPerName | pkg/controlrpc/rpc.go:60-102 | any two successful CreateVolume answers for a name carry the same id and capacity, and the capacity is at least the bytes required |
| Guarantees.LookupFindsTheVolume | pkg/manager/alcubManage.go:174-185 | for an id that was answered, any process's lookup yields nothing or, however stale, a record of that id and name |
| Guarantees.SpecForLife | pkg/manager/alcubManage.go:217-239 | any two versions ever stored under one name, now or later, have the same spec |
| Guarantees.EveryImageHasAnOwner | pkg/controlrpc/controller.go:171-199 | every image belongs to the create that made it, still in flight or ended without having removed it, or to the stored record with that create's id |
| Guarantees.EveryRecordHasItsImage | pkg/rbd/rbd_util.go:44-82 | a stored record has the image made for it unless a DeleteVolume removed that, never has one while terminating, has a positive capacity, and its image covers the capacity by less than 1048576 bytes too much |
| Guarantees.OnlyDeleteTakesARecordsImage | pkg/controlrpc/controller.go:171-199 | the only step that takes a stored record's image is the image step of a DeleteVolume that read this record; no rollback can |
| Guarantees.RunRollbackTakesItsOwn | pkg/controlrpc/controller.go:184-189 | in every run a rollback removes nothing or the image its own call made, whose id no version of any record has |
| Guarantees.LeakBlocksTheName | pkg/controlrpc/controller.go:180-189 | an image that a create left behind exists after whatever run follows, no record ever names it, and every later create of that name and class fails at its image step |
| Guarantees.ReparseAddressesTheRecord | pkg/rbd/rbd.go:216-227 | any later parse of a record's class that succeeds leads to exactly the pool and image in its spec |
| Calls.StretchIsRun | pkg/controlrpc/controller.go:171-199 | an uninterrupted stretch of controller steps is a run of the whole machine in which the nodes stand still |
| Calls.CreateRunIsStretch | pkg/controlrpc/rpc.go:60-102 | the script of CreateVolume is the machine's steps in order |
| Calls.DeleteRunIsStretch | pkg/controlrpc/rpc.go:108-123 | the script of DeleteVolume is the machine's steps in order |
| Calls.DeleteConverges | pkg/controlrpc/rpc.go:108-123 | from any state of any permitted run, so after a delete that stopped anywhere, a DeleteVolume with an index entry, answering services and no watcher succeeds, leaves no image and a terminating or absent record, and touches no other volume; on a deleted volume it changes nothing |
| Compensation.DeleteOfUnknownSucceeds | pkg/controlrpc/rpc.go:112-116 | in any state, deleting an id that is empty or not in the process's index succeeds and changes no record, image or index |
| Compensation.DeleteOutcome | pkg/controlrpc/rpc.go:108-123 | for every outcome of every step of a delete with an index entry: nothing to read is success; otherwise it succeeds if and only if the image was removed or already gone, unwatched and acknowledged, and the record was marked and acknowledged; nothing is marked unless the image step succeeded |
| Compensation.CreateIsAllOrNothing | pkg/controlrpc/controller.go:171-199 | a CreateVolume of a new volume answers if and only if image and record are made and both replies arrive, and then exactly the image, record, index entry and answer are new; if it does not answer, images, records and its index are as before if and only if no image was made, or the image was known to be made, no record was stored, and the rollback addressed it and was neither refused nor stopped by a watcher |
| Compensation.RecordLosesItsImageIff | pkg/controlrpc/controller.go:184-198 | a create of a new volume leaves its record stored without its image if and only if the image was made and known, the record was stored with its reply lost, and the rollback got through |
| Compensation.PublishOutcome | pkg/noderpc/rpc.go:66-128 | for every outcome of every step: a publish mounts only if it learned of its device, then the status write decides the answer; otherwise it fails with mounts and records untouched, and what stays connected is said exactly |
| Compensation.PublishLetsGoIff | pkg/noderpc/node.go:122-130 | after a publish no device is connected if and only if there was none and it connected none, or it learned of its device, could not mount it, and the rollback took effect |
| Compensation.LostConnectKeepsTheDevice | pkg/noderpc/node.go:122-125 | a connect that takes effect but reports failure leaves the device connected after a failed publish, with no rollback |
| Compensation.UnpublishOutcome | pkg/noderpc/rpc.go:145-187 | for every outcome of every step: an unpublish is let in by the version it read, disconnects only once nothing is mounted, clears the holder only once it is disconnected, and succeeds exactly if that write does |
| Compensation.UnpublishConverges | pkg/noderpc/rpc.go:145-187 | while the record names this node, a repeated unpublish with obliging services unmounts, disconnects and clears the holder wherever the failed one stopped, unless the write is refused, and succeeds exactly when the write is acknowledged |
| Compensation.HolderBlankedIff | pkg/noderpc/node.go:154-166 | an unpublish by any node makes the record of a held volume name nobody if and only if the version it read first named that node, the volume was cleared and disconnected there, and the write went to the stored version and was not refused |
| Compensation.FurtherUnpublishIsRefused | pkg/noderpc/node.go:154-157 | once an unpublish has cleared the record, acknowledged or not, the same node's next unpublish is refused and changes nothing |
| Compensation.PublishConverges | pkg/noderpc/rpc.go:61-128 | a repeated publish with obliging services succeeds from any state: connected, mounted, and recorded with node, device path, storage ip and zone of this publish, keeping a `Prenode` that is set and otherwise noting the node that held the volume |
| Compensation.RepeatedPublishStrandsTheMount | pkg/noderpc/rpc.go:84-96 | repeating a publish of a mounted volume with a failing target check leaves it mounted on a disconnected device |
| Counterexamples.CreateWorks | pkg/controlrpc/rpc.go:75-102 | with nothing in its way a create ends in a record, its image, its index entry and the answer, and nothing else |
| Counterexamples.NameReuseConfusesVolumes | pkg/manager/alcubManage.go:174-185 | a run that reuses a name: two successful answers with different ids, the old id leading to the new record |
| Counterexamples.RefusedRollbackLeavesTheImage | pkg/controlrpc/controller.go:184-189 | a run within the rules in which the record create and then the rollback are refused: the image stays without any record |
| Counterexamples.LostReplyLosesTheImage | pkg/controlrpc/controller.go:184-198 | a run in which a record create succeeds but reports failure: the record stays live and its image is gone, with no delete ever requested |
| NodeCounterexamples.StaleUnpublishBlanksTheHolder | pkg/noderpc/node.go:154-166 | a run in which a node that lost the volume reads an old version, is let in and succeeds: the record names nobody while the real holder has the volume mounted |
| NodeCounterexamples.StalePublishLosesThePrenode | pkg/noderpc/node.go:131-143 | a run in which a publish computes its status from an old version: it succeeds and a non-empty `Prenode` becomes empty |
| NodeCounterexamples.OverlapStrandsTheMount | pkg/noderpc/rpc.go:71-125 | a run with two overlapping publishes of one volume on one node and no failing check: one mounts, the other cannot and disconnects the device under that mount |
| NodeCounterexamples.LostReplyEndsTheRetries | pkg/noderpc/node.go:158-166 | a run in which the holder's unpublish fails with its record cleared, so that the retry is refused |
| NodeSafety.ConnectedHasImage | pkg/rbd/rbd_util.go:129-152 | in every run whatsoever a connected device's image exists |
| Copies.ConnectedHasItsRecord | pkg/rbd/rbd_util.go:129-152 | in every permitted run a connected device belongs to a stored, non-terminating record that names exactly its image, and the image exists |
| NodeSafety.DeleteOfWatchedImageFails | pkg/controlrpc/controller.go:103-110 | the image step of a DeleteVolume of a volume in use ends the call in failure and changes no record and no image |
| NodeSafety.NextNodesSafe | pkg/noderpc/rpc.go:66-187 | every step keeps: mounted implies connected, and each node call's device is connected and mounted as far as its next effect relies on |
| NodeSafety.MountedIsConnected | pkg/noderpc/rpc.go:66-187 | at every moment of every such run a mounted device is connected and its image exists |
| NodeSafety.MountsStayConnectedIff | pkg/noderpc/rpc.go:66-187 | any step, whatever calls overlap, keeps that mounted implies connected if and only if it is neither an effective disconnect of a mounted device nor a mount of an unconnected one |
| NodeSafety.FailedCheckDisconnectsMounted | pkg/noderpc/rpc.go:71-96 | a publish checking its target comes to strand a mount if and only if the check fails, the volume is mounted and the disconnect takes effect |
| HolderStatus.PublishAchieves | pkg/noderpc/node.go:131-144 | a publish that succeeds leaves its volume connected, mounted and recorded with its node, device path, storage ip and zone |
| HolderStatus.UnpublishAchieves | pkg/noderpc/node.go:158-166 | an unpublish that succeeds leaves its volume disconnected, unmounted and held by nobody |
| HolderStatus.FailedWriteKeepsStatusIff | pkg/manager/alcubManage.go:226-238 | a node call that fails with its status write leaves the record's status as it was if and only if it is not the case that the reply was lost, the copy was the stored version, and the status differed |
| HolderStatus.HolderStays | pkg/noderpc/node.go:149-168 | while no node call on a held volume succeeds or takes effect with its reply lost, and whatever else happens, its record stays stored with the same status, so its holder's retry stays admitted |
| Admission.UnpublisherHolds | pkg/noderpc/node.go:149-168 | in every serialised run, an unpublish past its admission works for the node that the stored record names at that moment |
| Admission.NonHolderChangesNothing | pkg/noderpc/node.go:154-157 | in every serialised run, no step of an unpublish by a node that the stored record does not name changes a record, image, connection or mount, and the call ends in failure once it has read |
| HolderStatus.PrenodeIsFirstHolder | pkg/noderpc/node.go:131-136 | in every serialised run a record's `Prenode` is the node found by the first status-writing publish of that volume that found one |
| HolderStatus.CommitFindsTheHolder | pkg/noderpc/node.go:131-143 | what such a publish found is what the record said at the moment of the write |
| PrenodeHistory.PrenodeKeptIff | pkg/noderpc/node.go:131-143 | any step of the machine, whatever came before, keeps a non-empty `Prenode` if and only if it is not a status write that takes effect from a copy which neither has that `Prenode` nor, in a publish, makes it that |
| PrenodeHistory.PrenodeKeptThroughoutIff | pkg/noderpc/node.go:131-166 | over any run in which the record stays stored, overlapping and stale calls included, a non-empty `Prenode` is the same at every moment if and only if every status write that takes effect on it comes from such a copy |
| PrenodeHistory.PrenodeIsFirstHolderIff | pkg/noderpc/node.go:131-166 | in every permitted run, overlapping and stale calls included, `Prenode` is at every moment the first holder that a status-writing publish found if and only if every status write that takes effect was computed from a copy that agrees with what had been found by then |
| HolderStatus.PrenodeWrittenOnce | pkg/noderpc/node.go:132-136 | in every serialised run a non-empty `Prenode` never changes again |
| NodeCalls.PublishRunIsRun | pkg/noderpc/rpc.go:61-128 | the script of NodePublishVolume is a run of the machine |
| NodeCalls.UnpublishRunIsRun | pkg/noderpc/rpc.go:145-187 | the script of NodeUnpublishVolume is a run of the machine |
| StorageClass.ParseIgnoresOrder | pkg/rbd/rbd.go:73-178 | with keys distinct after lower-casing, and a `key` entry or one value only in the secret that is read, any two orders of class and secret both fail or yield equal options |
| StorageClass.FoldAssembles | pkg/rbd/rbd.go:88-160 | the parameter loop yields an order-free reading of the parameters, or fails, exactly when some parameter is unacceptable by itself |
| StorageClass.ParsedPoolIsDeclared | pkg/rbd/rbd.go:128-132 | every successful parse, whatever order and lookups, has the declared pool |
| StorageClass.DistinctTagsAgree | pkg/rbd/rbd.go:88-132 | keys distinct after lower-casing never disagree about the pool |
| StorageClass.PoolIgnoresOrderIff | pkg/rbd/rbd.go:88-132 | for a class that parses, all orders agree on the pool if and only if the keys that mean the pool carry one value |
| StorageClass.SecretIgnoresOrderIff | pkg/rbd/rbd.go:191-200 | the secret read is the same in all orders if and only if there is a `key` entry or all entries have one value |
| StorageClass.MibCovers | pkg/rbd/rbd_util.go:48-53 | a size in units of 1048576 bytes is refused exactly when no bytes are asked for, and otherwise covers the request by less than one unit too much |
| Parameters.ParsedOptions | pkg/rbd/rbd.go:73-178 | with keys distinct after lower-casing, a class parses if and only if every key is a known one with an allowed value and the admin secret is named and readable; then every option is the value of the key of its name or its default, an empty user id is the admin id, and the admin secret is the value read |
| Parameters.PoolByKey | pkg/rbd/rbd.go:128-132 | a class that names its pool, in any capitals, is parsed to that pool; one that does not, to `rbd` |
| Parameters.DeclaredPoolIsAsked | pkg/rbd/rbd.go:128-132 | the declared pool, in which separate parses meet, is the value of the key that reads `pool` in lower case, or `rbd` |
| Parameters.LowerExamples | pkg/rbd/rbd.go:89 | capitals become the small letters at their places in the alphabet, two foreign letters become `i` and `k`, and everything else stays |
| Parameters.SplitJoins | pkg/rbd/rbd.go:97 | splitting at commas is undone by joining and leaves no comma in any part |
| Parameters.ResolvesEach | pkg/rbd/rbd.go:98-112 | monitors are resolved one by one and in order, and one that does not resolve stands for itself |
| StorageClass.SecretIsKeyEntry | pkg/rbd/rbd.go:191-197 | a secret with a `key` entry is read as that entry's value, wherever iteration meets it |
| StorageClass.SecretIsLastEntry | pkg/rbd/rbd.go:199-200 | a secret without one is read as the value met last |
| Rbd.ParseParameters | pkg/rbd/rbd.go:73-178 | the loop with its early returns computes the fold, for any iteration order |
| Rbd.ParseParameter | pkg/rbd/rbd.go:89-159 | each branch of the switch, with its monitor and feature loops, advances the fold by its key |
| Rbd.ParsePVSecret | pkg/rbd/rbd.go:181-201 | the secret loop returns the `key` entry, or else the entry met last |
| Rbd.RbdClient.CreateImage | pkg/rbd/rbd.go:203-214 | adds exactly the image in the resolved pool, exclusively, or changes nothing and fails; a lost reply fails with the image made; on success its size in units of 1048576 bytes covers the bytes asked for by less than one unit too much |
| Rbd.RbdClient.DeleteImage | pkg/rbd/rbd.go:216-227 | removes exactly the addressed image, never a watched one; succeeds if and only if the class resolves, nobody watches the image and the service acknowledges, also when the image is already gone |
| Manager.AlcubCon.ReverseUuid | pkg/manager/alcubManage.go:301-313 | reserves an id for one name; refuses, unchanged, when another name has it |
| Manager.AlcubCon.GetByUuid | pkg/manager/alcubManage.go:174-185 | answers what the cache says of the indexed name, and nothing for an id that is not indexed |
| Manager.AlcubCon.Create | pkg/manager/alcubManage.go:119-153 | the id stays reserved exactly if the record was stored and said so; the store gains exactly that record, with empty status and the driver's finalizer, or stays |
| Manager.AlcubCon.Delete | pkg/manager/alcubManage.go:155-172 | the record is marked for deletion, or nothing changes and the call fails |
| Manager.AlcubCon.Update | pkg/manager/alcubManage.go:217-239 | a compare-and-swap of the given parts on the version that was read |
| Manager.AlcubCon.ReconcileRecord | pkg/manager/alcubManage.go:81-117 | store and index end where the machine's reconcile and strip steps lead: a live record is indexed, a terminating one that names a node is left alone, and one that names none disappears if it is still the stored version |
| Controller.ControllerServer.CreateVolumeFor | pkg/controlrpc/controller.go:171-199 | services and index end where image, record and deferred rollback lead in the machine |
| Controller.ControllerServer.CreateVolume | pkg/controlrpc/rpc.go:23-103 | exactly the requests without name, capabilities or mount access, or with a content source, are refused and change nothing; otherwise the call is its script, `AlreadyExists` and `Unavailable` come exactly in their cases, a found volume is answered as it is, and a new one is stored with its image and size and answered with the required topologies, or else the preferred ones |
| Controller.ControllerServer.DeleteVolumeOf | pkg/controlrpc/controller.go:103-110 | image first, then the record, as the machine's steps |
| Controller.ControllerServer.DeleteVolume | pkg/controlrpc/rpc.go:108-123 | the call is its script and reports success exactly when that ends well; with an empty or unindexed id, or nothing to read, it succeeds and changes nothing |
| NodeService.NodeServer.AttachDevice | pkg/noderpc/node.go:67-79 | connects this volume's device only if its image exists, and reports a device exactly when told one |
| NodeService.NodeServer.PreMountValid | pkg/noderpc/node.go:85-147 | the device is connected exactly when every earlier check passed |
| NodeService.NodeServer.NodePublishVolume | pkg/noderpc/rpc.go:39-128 | bad requests change nothing; `NotFound` comes exactly when the id is not indexed or nothing is read; otherwise the call with its deferred commit or rollback is its script, and on success the volume is connected, mounted and recorded with this node, the device, the server's storage ip and the zone |
| NodeService.NodeServer.NodeUnpublishVolume | pkg/noderpc/rpc.go:130-187 | likewise for unpublish, where the device goes only after the unmount; a version read that names another node changes nothing, and on success the volume is disconnected, unmounted and names nobody |
| NodeLabels.ExpandReplacesEach | pkg/controlrpc/nodeManage.go:296-305 | a `%N` between any two texts is replaced by the name, and so is every one in either text |
| NodeLabels.ExpandKeepsOtherText | pkg/controlrpc/nodeManage.go:296-305 | text without `%N` is kept |
| NodeLabels.OccursIff | pkg/controlrpc/nodeManage.go:296-305 | a text contains `%N` if and only if it is two texts with `%N` between them |
| NodeLabels.ExpandInjectiveIff | pkg/controlrpc/nodeManage.go:296-305 | distinct node names always expand a template differently if and only if it contains `%N` |
| NodeLabels.FilterIsPersonalIff | pkg/controlrpc/nodeManage.go:76-87 | one node's filter label never qualifies another node if and only if the filter's key or value contains `%N` |
| NodeLabels.ReconcileSettles | pkg/controlrpc/nodeManage.go:76-121 | one reconciliation reaches a fixed point, keeps every label outside the csi keys, and does not change whether the node qualifies |
| NodeLabels.LabelledExactlyWhenQualified | pkg/controlrpc/nodeManage.go:96-120 | after reconciliation the csi labels are all there just if the filter label is, if and only if a qualifying node did not already hold a csi key with a wrong or missing companion value; with no csi labels configured, if and only if the node qualifies |
| NodeLabels.LabelledIff | pkg/controlrpc/nodeManage.go:239-255 | a name is returned if and only if a node of that name carries every csi label with its value |
| NodeLabels.LabelledAppends | pkg/controlrpc/nodeManage.go:239-255 | nodes are counted one by one and in order |
| NodeLabels.NoCsiLabelsLabelAll | pkg/controlrpc/nodeManage.go:239-255 | with no csi labels configured every node that has a label map counts as labelled |
| NodeLabels.RacedReconcileIff | pkg/controlrpc/nodeManage.go:257-276 | an update decided on labels that the node no longer has keeps every label outside the csi keys, and settles the node exactly by a table over the labels there now: no csi labels are configured; or the node calls for removal or addition and that was decided; or it calls for nothing and nothing was decided, or a removal where no csi key is, or an addition where every csi label is already there |
| NodeLabels.LabelController.LabelUpdate | pkg/controlrpc/nodeManage.go:76-121 | in every iteration order the loop decides to add exactly for a node with its expanded filter label and no csi key, and to remove exactly for one without it and with a csi key |
| NodeLabels.LabelController.UpdateNode | pkg/controlrpc/nodeManage.go:257-276 | the first try that does not conflict decides: the labels which that try read are written back without the csi keys, with the csi labels, or as they were; after five conflicts the update is given up; adding to nil labels panics |
| NodeLabels.LabelController.Reconcile | pkg/controlrpc/nodeManage.go:190-217 | what the first read calls for is what is performed, on labels read anew; a node that does not change meanwhile ends with its settled labels, and one that is gone, terminating or without labels gets no change |
| NodeLabels.LabelController.LabledNodes | pkg/controlrpc/nodeManage.go:239-255 | exactly the nodes, in order, that carry every csi label with its value |
| NodeLabels.InMaps | pkg/controlrpc/nodeManage.go:278-294 | true exactly when every pair is included; a nil pair map is always included, in a nil source nothing else is |

## Left out

- The alcub HTTP service and its URLs: only the outcomes of connect, disconnect and status remain.
- Running commands and reading Ceph's output: an rbd call is a step with an outcome; status and rm are one step, so a watcher that appears between them is not modelled.
- DNS lookup, the cached DNS address and host and port splitting: one table says what each monitor entry resolves to.
- The node-info cache, `StopNode`, `StartNode`, `notidyAlcub` and `notreadyController`: their caller is marked as useless in the code.
- The contents of volume contexts, mount options and file system types: passed through, with no effect on the protocol.
- gRPC wiring, identity, unimplemented calls, flags, logging, metrics and process start-up.
- Several target paths for one volume on one node, and a mount that fails after having mounted.
- Single-node exclusivity of attachment: the code allows takeover by another node, so none is claimed.
- The lock around the index: each index operation is one atomic step.
- StorageClass.MibCovers: the rounding is the mathematical ceiling on unbounded integers; the 64-bit width and overflow are not modelled.
- Calls.DeleteConverges: needs an index entry for the id; without one the code reports success and looks at no record.
- Guarantees.OneIdPerName: holds under the rules above; name reuse breaks it, as Counterexamples.NameReuseConfusesVolumes shows.
- NodeSafety.MountedIsConnected: holds under the node rules above; a failing target check breaks it, as Compensation.RepeatedPublishStrandsTheMount shows.
- Manager.AlcubCon.ReconcileRecord: the node-info part of reconciliation is left out.
- HolderStatus.PrenodeIsFirstHolder: assumes fresh first reads, which the cache does not promise; PrenodeHistory.PrenodeIsFirstHolderIff is the exact statement without that.
- HolderStatus.PrenodeWrittenOnce: assumes the same; PrenodeHistory.PrenodeKeptThroughoutIff is the exact statement without that.
- HolderStatus.HolderStays: leaves out the failing call whose status write takes effect, as NodeCounterexamples.LostReplyEndsTheRetries shows.
- Admission.NonHolderChangesNothing: holds for serialised calls; a stale read breaks it, as NodeCounterexamples.StaleUnpublishBlanksTheHolder shows.
- Controller.ControllerServer.CreateVolume: a failure in the record step is reported as one internal error, as in the code, whatever its cause.
