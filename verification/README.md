# Verified model of the flotta device worker

This Dafny project models the parts of the device worker that keep state across steps which may
fail, and proves what they keep over all inputs and all runs:

- the **metrics remote writer** (`TimeSeries`, `Batching`, `Delivery`, `Paging`, `Calls`,
  `RemoteWriter`, `Lifecycle`, `DbTime`): paging through the metrics store in closed millisecond
  ranges, repacking series into requests of exactly N samples, retrying each request, persisting
  the cursor, and starting and stopping the writer goroutine;
- the **workload manager** (`Mapping`, `Pods`, `Wrapper`, `Reconcile`, `Attempts`, `Manager`,
  `Secrets`): driving pods, manifests, auth files and secrets to the configuration under per-step
  failures, and the index of pod ids and names, also after restarts with an old index;
- the **configuration manager** (`Configuration`, `Labels`), the **playbook event transformer** (`TaskIds`,
  `Playbook`), the **heartbeat deltas** (`Heartbeat`) and the **workload log buffer** (`FifoLog`).

`dafny verify dfyconfig.toml` checks everything.

## How the model is built

Code that changes state step by step is a class with the source's fields and a method per
operation. The `ensures` of such a method equates the new state with a function of the old one, or
says that the call was a run of a transition system; the lemmas then speak about those functions
and runs. `Options`, `Fresh` and `Paths` are helpers.

What the code does not control is universally quantified: the answers of the remote receiver (each
call may be accepted, fail recoverably or fail for good), the state of the metrics store at every
iteration, which reads of it are cut short, and which step of an operation fails (including a
specification that does not parse and a mount that is not there yet). Iteration over Go maps is in
arbitrary order.

Instants in the paging model are whole milliseconds; `DbTime` proves that the conversions to and
from the store's milliseconds and the nanoseconds of the cursor file lose nothing.

Assumptions about the metrics store (`Paging.WellFormed`, `Paging.Grows`): blocks are sorted by
their first instant and start no later than the head; every sample lies in a block or the head and
not before MinTime; reading a closed range returns samples of that range only, none twice, in any
grouping into series, possibly with empty series among them, and no series at all for a range that
reaches into no block and not into the head; and new samples appear only above every MaxTime already
seen. The store may drop old samples and rearrange its blocks at any time, and a read may return less
than the range holds.

## Findings

Where the code does not keep what one would expect, the code is modelled as it is and the exact
condition is proved:

- A read of the metrics store that is cut short by an error is taken for a complete one
  (internal/metrics/metrics.go:151-173): the cursor passes the samples it did not return. Every other
  sample is delivered at least once, and nothing is missed exactly when no read was cut short
  (`Paging.AtLeastOnce`, `Paging.MissedNothing`, `Paging.ReadsExactlyOnce`,
  `Paging.CutShortReadLosesSample`).
- A receiver configuration with a negative sample count is accepted, only zero is refused
  (`Lifecycle.AnyOtherCountReachesAWriter`). The batching loop then slices out of range exactly when
  the range holds a sample (`RemoteWriter.RemoteWrite.WriteRange`), which ends the process, so no
  sample is ever delivered (`Paging.NegativeCountDeliversNothing`).
- Updating a secret removes it first and creates it again (internal/workload/podman/podman.go:375-381):
  it is lost exactly when the create then fails (`Secrets.LostExactlyBetweenRemoveAndCreate`,
  `Secrets.UpdateCanLoseSecret`), until a later update creates it
  (`Secrets.LostSecretIsCreatedAgain`).
- A workload whose Remove or Run failed is not retried: its files already match the configuration,
  so later updates skip it and report success (`Reconcile.FailedRunIsNotRetried`,
  `Reconcile.RetriedExactlyIfFilesDiffer`, `Reconcile.UpdateConverges`,
  `Reconcile.UpdateNeedNotConverge`). Over any sequence of updates it is down exactly when the last
  attempt to start it failed, or its pod vanished since (`Attempts.DownExactlyAfterFailedAttempt`).
- Workload names share a directory exactly when they differ only in spaces and dashes
  (`Paths.ShareExactly`). Two of them that disagree are removed and run again by every update
  (`Reconcile.SharedDirectoryNeverSettles`); a second update
  is silent exactly when those that share a directory agree
  (`Reconcile.SecondUpdateIsSilentExactly`).
- The pod index is in step with the pods after a restart exactly when the last change to it was
  written (`Pods.RestartKeepsStepExactly`, `Pods.FileHoldsIndexExactly`). An index out of date still
  never makes a removal miss its pod or take another one, as long as podman does not give an id twice
  and a pod is started only after its removal succeeded (`Pods.RemovalsFindTheirPod`).
- The workload manager writes labels into the label map of the message it is told
  (internal/workload/manager.go:480-511), after the message was compared and encoded. A stored message
  that is sent again is therefore processed again, every time, if and only if a workload in it comes
  without a label its pod needs (`Configuration.RepeatPassesExactly`, `Configuration.RepeatedForever`,
  `Configuration.AutoUpdateIsNeverSettled`): its label map is present, an auth file or an autoupdate
  label is set, and the label added is not there yet (`Labels.PodLabelsAddExactly`). Memory then
  differs from the file (`Configuration.MemoryDiffersFromFile`); a restart that writes the labels again
  brings memory back.
- The unordered list comparison is right for every list exactly when the stored names are distinct
  (`Configuration.ComparisonIsRightExactlyForDistinctNames`).
- A new version or device id gets into memory exactly when something else lets the message pass, and
  it can be stored (`Configuration.GateIsInForce`, `Configuration.IdentityTakenExactly`).
- After a new message that could not be stored, and only then, what the observers were told last is
  not in force. Repeating what is in force puts them right only if it lacks a label
  (`Configuration.ToldIsInForceExactly`, `Configuration.RepeatLeavesObserversWrong`).
- The comment at internal/ansible/dispatcher/dispatcher_events.go:44 promises a playbook start
  event first; the code never emits one, because its counter is 0 or at least 2 at the top of the
  loop (`Playbook.NeverPlaybookStart`).
- When original task ids contain underscores, the hosts of one task can end up under different ids,
  exactly when the id given to the first belongs to several tasks (`TaskIds.HostsShareId`,
  `TaskIds.UnderscoreSplitsHosts`). Where that cannot happen, two tasks of a play end up under one id
  exactly when one has, unrepeated, the id that the other one gets (`TaskIds.NumberingDistinguishes`,
  `TaskIds.UnderscoreMergesTasks`), and tasks of different plays also when both started with it and
  neither play repeats it (`Playbook.UuidsAcrossPlays`).
- A heartbeat lost after the first success loses the change it carried until a full scope
  (`Heartbeat.LostUntilFullScope`, `Heartbeat.FullScopeRepairs`). The immutable information is sent by
  one push only, and reaches the receiver if and only if that push arrives
  (`Heartbeat.FullInformationCanBeLost`, `Heartbeat.FullInformationIsLostForGood`).
- A change of the mounts is told in full scope only (`Heartbeat.MountsOnlyInFullScope`), and that the
  last interface is gone is never told (`Heartbeat.NoInterfacesAreNeverTold`).
- A log entry is lost exactly when the transport fails while the queue is over its limit
  (`FifoLog.LostExactlyWhenFull`), never while a workload stays within the limit
  (`FifoLog.NothingLostWithinLimit`).
- The sentinel milliseconds 0, minimum and maximum do not survive the time conversions
  (`DbTime.DbTimeRoundTrip`).

## Model

| member | source | states |
|---|---|---|
| `TimeSeries.RequestsFlatten` | internal/metrics/remote_write.go:349-398 | the requests concatenated give back all samples in order, each under its own labels, for every series list and every N > 0 |
| `TimeSeries.RequestsShape` | internal/metrics/remote_write.go:363-395 | every request but the last holds exactly N samples, none holds more, and each is a regrouped run of consecutive samples |
| `TimeSeries.CutSources` | internal/metrics/remote_write.go:359-375 | a request lists each source series at most once, in order, with a non-empty run of its points under its labels |
| `TimeSeries.RequestsCount` | internal/metrics/remote_write.go:384-394 | T samples cost ceil(T/N) requests, and one empty request more exactly when N divides T and the last series is empty |
| `TimeSeries.GrowIsCut` | internal/metrics/remote_write.go:359-375 | appending to the request in place keeps it equal to the regrouped run of samples between its two positions |
| `Batching.SendsFull` | internal/metrics/remote_write.go:378-395 | a full request is the next one due, and the loop goes on from the following sample |
| `Batching.SendsLast` | internal/metrics/remote_write.go:378-395 | when no series is left the request is the last one due, also when it is empty |
| `RemoteWriter.RemoteWrite.WriteRange` | internal/metrics/remote_write.go:349-398 | for every count an accepted configuration can have the two-cursor loop ends; it sends exactly the specified requests in order, or a prefix of them ending with the one that was given up, and slices out of range exactly when the count is negative and some series has a sample, before anything is sent; the slices of the series it is given stay as they are |
| `RemoteWriter.Grown` | internal/metrics/remote_write.go:359-375 | the samples of a series go into a new slice of the request: an entry is only ever appended to while it is nil |
| `RemoteWriter.RemoteWrite.WriteRequest` | internal/metrics/remote_write.go:402-450 | a request is repeated only after recoverable errors, at most three times; false exactly after three of them, or without an attempt when it cannot be encoded |
| `Delivery.GivesUpExactlyOnExhaustion` | internal/metrics/remote_write.go:389-391 | a range stops early if and only if some request got three recoverable errors in a row or could not be encoded, and that request is the last one tried; any other is tried until accepted or refused for good, again only after recoverable errors |
| `Delivery.DeliverySettles` | internal/metrics/remote_write.go:425-449 | each request not given up is settled exactly once, the one given up and the later ones not at all |
| `RemoteWriter.SkipEmptyRanges` | internal/metrics/remote_write.go:472-497 | for sorted, possibly overlapping blocks before the head, the least covered instant from the argument on |
| `RemoteWriter.RemoteWrite.NextRange` | internal/metrics/remote_write.go:289-306 | the next closed range starts at the cursor, at MinTime, or past the hole, and ends within the store |
| `RemoteWriter.RemoteWrite.Write` | internal/metrics/remote_write.go:283-345 | a call, followed for any number of iterations over any store, is a valid run of the paging system that, once it ends, has caught up, or met an unreadable store, a request given up or a count that crashes it |
| `Calls.CallsEnd` | internal/metrics/remote_write.go:287-287 | a call ends: after MaxTime stopped rising it goes on for no more iterations than there are milliseconds left |
| `Paging.RangeAdvances` | internal/metrics/remote_write.go:289-306 | each range lies above the cursor and not past MaxTime, so LastWrite rises by at least 1 ms; after an empty range the next one starts inside a block or the head |
| `Paging.RangeIsFull` | internal/metrics/remote_write.go:289-306 | a range starts right above the cursor, at MinTime, or past the hole, and has the full duration unless it ends at MaxTime |
| `Paging.SkipsExactlyAfterEmpty` | internal/metrics/remote_write.go:284-336 | over any run holes are skipped directly after an empty range of the same call and nowhere else |
| `Paging.NoTwoOutside` | internal/metrics/remote_write.go:287-306 | over any run no two consecutive queries of a call lie wholly outside the blocks and the head |
| `Paging.NothingSkipped` | internal/metrics/remote_write.go:297-301 | no sample lies between the cursor and the start of the next range, despite the jumps to MinTime and over holes |
| `Paging.RangesOrdered` | internal/metrics/remote_write.go:287-344 | the queried ranges are ordered and disjoint |
| `Paging.InExactlyOneRange` | internal/metrics/remote_write.go:287-344 | over a frozen store every sample the cursor passes falls in exactly one queried range |
| `Paging.ReadsExactlyOnce` | internal/metrics/remote_write.go:287-344 | over a frozen store the ranges together read every sample the cursor passed exactly once and no other, except those missed by reads that were cut short |
| `Paging.SettlesWhatWasRead` | internal/metrics/remote_write.go:320-339 | what the receiver settles is what was read, in order, with the device label added |
| `Paging.SettledCarryDevice` | internal/metrics/remote_write.go:320-323 | a settled sample is the one read with the device label added and nothing else changed |
| `Calls.FrozenCallDeliversAll` | internal/metrics/remote_write.go:283-345 | a call that ends without a failure leaves LastWrite at MaxTime and has settled every sample in (LastWrite, MaxTime] exactly once, except those missed, of which there are none exactly when every read was complete |
| `Paging.AtLeastOnce` | internal/metrics/remote_write.go:325-343 | over any calls, failures, crashes, store growth, failed cursor writes and restarts, every sample between the first cursor and LastWrite was settled, or missed by the read of its range, and the persisted cursor is never ahead |
| `Paging.MissedNothing` | internal/metrics/metrics.go:151-173 | over any run nothing is missed exactly when no read of a completed range was cut short |
| `Paging.CutShortReadLosesSample` | internal/metrics/metrics.go:151-173 | a run in which the cursor passes a sample that the receiver never got |
| `Paging.NegativeCountDeliversNothing` | internal/metrics/remote_write.go:366-373 | over any run with negative sample counts no sample is ever settled, and the cursor passes only samples that no read returned |
| `Paging.LastWriteGrows` | internal/metrics/remote_write.go:338-343 | without a restart in between LastWrite never decreases |
| `Paging.RestartReadsLastStored` | internal/metrics/remote_write.go:338-343 | a restart goes on from the end of the last range whose cursor was stored, or from the zero instant when the file was emptied since or there was none |
| `RemoteWriter.RemoteWrite.constructor` | internal/metrics/remote_write.go:51-77 | a writer starts from the cursor in the file, or from the zero instant when there is none that can be read |
| `RemoteWriter.RemoteWrite.Update` | internal/metrics/remote_write.go:124-163 | an update is the lifecycle step; a rejected one changes nothing |
| `RemoteWriter.RemoteWrite.GetConfig` | internal/metrics/remote_write.go:256-274 | a writer takes client and sample count of the current configuration, and the count is one `Write` accepts; or it leaves and clears isRunning |
| `Lifecycle.AtMostOneWriter` | internal/metrics/remote_write.go:124-279 | under every interleaving: one live writer when isRunning and none otherwise, the client exactly the one the current configuration asks for, usable and with a writer, and busy writers hold matching pairs |
| `Lifecycle.BusyUsesAnAcceptedConfig` | internal/metrics/remote_write.go:256-276 | what a busy writer uses was the configuration of some earlier accepted update |
| `Lifecycle.UpdateTakesEffect` | internal/metrics/remote_write.go:139-160 | over every run an update is taken exactly when it is in force already, asks for no writer, or is usable; the client is then the new configuration's and has a writer, and otherwise nothing changes |
| `Lifecycle.WriterFollowsConfig` | internal/metrics/remote_write.go:256-279 | a writer at the top of its loop goes on with exactly the configuration in force, or ends when that asks for none |
| `Lifecycle.BusyCountIsNotZero` | internal/metrics/remote_write.go:176-184 | over every run a busy writer's sample count is that of an accepted configuration and not zero |
| `Lifecycle.AnyOtherCountReachesAWriter` | internal/metrics/remote_write.go:178-184 | a count can reach a writer if and only if it is not zero |
| `DbTime.DbTimeRoundTrip` | internal/metrics/metrics.go:289-300 | milliseconds survive the round trip exactly when they are no sentinel and their nanoseconds fit 64 bits, under truncating division |
| `DbTime.NumbersMean` | internal/metrics/metrics.go:289-300 | the store's numbers count milliseconds and those of the cursor file nanoseconds |
| `DbTime.LastWriteRoundTrip` | internal/metrics/remote_write.go:67-67 | the instant read back from the cursor file is the one that was stored |
| `DbTime.LastWriteFileRoundTrip` | internal/metrics/remote_write.go:340-340 | every 64-bit number in the cursor file denotes an instant that is stored as that number |
| `Mapping.AddKeepsInverse` | internal/workload/mapping/mapping.go:63-71 | adding a pair keeps the two maps inverse exactly when neither side is taken by another pair |
| `Mapping.RemoveKeepsInverse` | internal/workload/mapping/mapping.go:73-82 | removing a name keeps them inverse exactly when the name is known or no id is empty |
| `Mapping.RunsStayInverse` | internal/workload/mapping/mapping.go:63-82 | over every run driven by the manager the index stays one-to-one |
| `Mapping.ReloadRestores` | internal/workload/mapping/mapping.go:36-61 | persisting and loading again restores both maps in any order of the entries |
| `Mapping.MappingRepository.constructor` | internal/workload/mapping/mapping.go:36-61 | loading builds both maps from the entries |
| `Mapping.MappingRepository.Persist` | internal/workload/mapping/mapping.go:125-139 | the file lists every pair once, or is left as it was |
| `Mapping.MappingRepository.Add` | internal/workload/mapping/mapping.go:63-71 | the maps change even when the file cannot be written; exactly when they stay inverse |
| `Mapping.MappingRepository.Remove` | internal/workload/mapping/mapping.go:73-82 | the name and its id leave both maps, which stay inverse |
| `Wrapper.Workload.Remove` | internal/workload/wrapper.go:164-185 | pods, services, chains, index and index file after a removal for every pattern of failing steps, also when a restart loaded an old index; after a success neither the index nor its file knows the name |
| `Wrapper.Workload.Run` | internal/workload/wrapper.go:223-267 | the same for a start after such a removal; index and file never come to mislead, even when later steps fail |
| `Wrapper.RunComesTo` | internal/workload/wrapper.go:223-267 | a run that succeeds leaves pod, service and chain; without a failing step it fails only for an illegal port or a name in use |
| `Wrapper.FailedRunComesTo` | internal/workload/wrapper.go:223-267 | what is there of chain, pod and service for every pattern of failing steps |
| `Wrapper.RemoveComesTo` | internal/workload/wrapper.go:164-185 | a removal that succeeds leaves neither pod nor service; what each failing step leaves; a service that stays keeps the pod |
| `Wrapper.Workload.List` | internal/workload/wrapper.go:146-158 | every pod once, under distinct names which are those of the deployed workloads, indexed or not |
| `Pods.RemovalsFindTheirPod` | internal/workload/wrapper.go:164-185 | over every run of removals, starts directly after a removal that succeeded, failed index writes and restarts a removal takes the pod of its name and no other |
| `Pods.RestartKeepsStepExactly` | internal/workload/mapping/mapping.go:36-61 | a restart keeps index and pods in step exactly when the file holds the index |
| `Pods.FileHoldsIndexExactly` | internal/workload/mapping/mapping.go:63-82 | from a file that holds the index, it does so after a change exactly when that was written or the removed name had no pod |
| `Reconcile.ConvergesExactly` | internal/workload/manager.go:132-211 | after an update without failure a configured workload runs its manifest with its auth if and only if its stored files differed before or it was running them already |
| `Reconcile.HandledRunsItsFiles` | internal/workload/manager.go:170-198 | a modified workload handled without a failure runs its manifest as manifest and its auth as auth, with its service and chain |
| `Reconcile.ModifiedExactly` | internal/workload/manager.go:552-573 | a workload counts as modified exactly when the stored manifest or auth is not the configured one |
| `Reconcile.UnpreparedIsLeftAlone` | internal/workload/manager.go:140-163 | a workload that does not parse, waits for a mount, or gets no directory or manifest is left alone and counts as failed |
| `Reconcile.UnstoredIsNotRestarted` | internal/workload/manager.go:176-188 | what is stored when storing the manifest or the auth file fails; the pod stays |
| `Reconcile.MissingAuthFileIsNoFailure` | internal/workload/manager.go:427-434 | an auth file to delete that is not there makes nothing fail |
| `Reconcile.EventExactlyForFailedRun` | internal/workload/manager.go:190-210 | Run is called exactly after a Remove that succeeded, and an event queued exactly when it then fails |
| `Reconcile.NothingStaleLeft` | internal/workload/manager.go:219-231 | of a stale workload no file, pod or service is left when nothing fails |
| `Reconcile.WithoutFaultsNothingFails` | internal/workload/manager.go:118-234 | with legal ports and no failing step an update has no failure |
| `Reconcile.UpdateConverges` | internal/workload/manager.go:132-233 | an update without failure leaves exactly the configured workloads running as configured if and only if every workload it skipped was running |
| `Reconcile.UpdateNeedNotConverge` | internal/workload/manager.go:172-175 | a concrete state from which an update without failure does not bring a configured workload up |
| `Reconcile.UpdateStoresFiles` | internal/workload/manager.go:170-188 | and the stored manifest and auth are the configured ones when no stale workload shares a directory |
| `Reconcile.UpdateIsIdempotent` | internal/workload/manager.go:132-233 | once running and stored, a second update runs, removes and writes nothing, whatever would fail |
| `Reconcile.RetriedExactlyIfFilesDiffer` | internal/workload/manager.go:170-210 | exactly which failures of one update are tried again by the next |
| `Reconcile.FailedRunIsNotRetried` | internal/workload/manager.go:172-210 | a workload whose restart failed is skipped by later updates, which report success for it |
| `Attempts.DownExactlyAfterFailedAttempt` | internal/workload/manager.go:118-234 | over any sequence of updates with any failures a configured workload is down exactly when the last attempt to start it failed before its pod was up, or the pod vanished since |
| `Paths.SpacesAndDashesShare` | internal/workload/manager.go:275-277 | two different names with one directory |
| `Paths.ShareExactly` | internal/workload/manager.go:275-277 | names share a directory exactly when they differ in spaces and dashes only |
| `Reconcile.SharedDirectoryNeverSettles` | internal/workload/manager.go:275-277 | two workloads in one directory that disagree: after an update in which nothing fails the next one removes and runs both again |
| `Reconcile.SecondUpdateIsSilentExactly` | internal/workload/manager.go:118-234 | after an update in which nothing failed a second one calls nothing, and then changes nothing, if and only if workloads that share a directory agree and no stale workload was removed from the directory of a configured one |
| `Reconcile.NothingElseRuns` | internal/workload/manager.go:132-211 | whatever fails, a pod that runs afterwards ran before unchanged or runs exactly the manifest and the auth of its configuration |
| `Reconcile.PrunedOneMore` | internal/workload/manager.go:219-231 | removing stale workloads one after another has the same result in every order |
| `Manager.WorkloadManager.Update` | internal/workload/manager.go:118-234 | the whole update, for every pattern of failures, including secrets lost half way; no error means that nothing failed and the secrets equal the configuration |
| `Manager.WorkloadManager.UpdateWorkload` | internal/workload/manager.go:133-211 | one configured workload: files, pod, calls, events and the outcome, step by step |
| `Manager.WorkloadManager.RemoveStale` | internal/workload/manager.go:213-231 | the directories and pods of all deployed but not configured workloads are removed as far as nothing fails |
| `Manager.WorkloadManager.ManageAuthFile` | internal/workload/manager.go:254-265 | the auth file is written, or deleted when blank; a missing file to delete is no failure |
| `Manager.WorkloadManager.PodConfigurationModified` | internal/workload/manager.go:552-573 | a workload counts as modified when its stored manifest or auth differs |
| `Manager.WorkloadManager.IndexWorkloads` | internal/workload/manager.go:297-307 | the index has exactly the names of the deployed pods |
| `Reconcile.UpdateTwice` | internal/workload/manager.go:118-234 | from a consistent state two updates with one configuration, the first without error: the configuration runs and the second changes and calls nothing |
| `Manager.WorkloadManager.Deregister` | internal/workload/manager.go:326-387 | every step is tried; which pods, services, chains, files and volumes are left for every pattern of failures; a mapping file that is left lists no workload removed in full; no error means that nothing failed and no pods are left; later updates do nothing |
| `Secrets.SecretStore.UpdateSecrets` | internal/workload/manager.go:575-599 | for distinct names each configured or present secret gets exactly one operation: create, update or remove |
| `Secrets.SecretStore.UpdateSecret` | internal/workload/podman/podman.go:375-381 | an update is done, leaves the secret untouched, or leaves it removed |
| `Secrets.SecretsAfterFailures` | internal/workload/manager.go:581-597 | for any pattern of failures a secret is at its target, as before or gone, as its one operation was done, failed at once or failed half way |
| `Secrets.LostExactlyBetweenRemoveAndCreate` | internal/workload/podman/podman.go:375-381 | a stored and configured secret is lost if and only if its update failed after its remove |
| `Secrets.UpdateCanLoseSecret` | internal/workload/podman/podman.go:375-381 | a concrete update that loses the only secret |
| `Secrets.LostSecretIsCreatedAgain` | internal/workload/manager.go:575-589 | the next update that can list the secrets creates a lost secret again |
| `Secrets.AllSucceededEqualsConfig` | internal/workload/manager.go:575-599 | with no failure the device store equals the configuration |
| `Secrets.WithoutFaults` | internal/workload/manager.go:575-599 | operations for which no step fails are all done |
| `Configuration.IsEqualUnordered` | internal/configuration/configuration.go:206-240 | the comparison loop decides multiset equality when the stored names are distinct |
| `Configuration.ComparisonIsRightExactlyForDistinctNames` | internal/configuration/configuration.go:206-240 | and it is right against all lists only then |
| `Labels.PodLabelsAddExactly` | internal/workload/manager.go:493-511 | labels are added exactly when an auth file or automatic updates need one that is not there, and then none is lacking |
| `Labels.PodLabelsAre` | internal/workload/manager.go:498-511 | the values of the auth file label and the unit label, and that no other label changes |
| `Configuration.OnlyLabelsAreWritten` | internal/workload/manager.go:472-496 | only workloads with a label map and a specification that parses are written to, and only their labels |
| `Labels.AddPodLabels` | internal/workload/manager.go:498-511 | the loop over the labels adds them in every order |
| `Configuration.UpdateTakesEffect` | internal/configuration/configuration.go:117-180 | a message is in force, with the labels its pods need, once stored or skipped; a failed write changes nothing in force, and the message is processed again when repeated |
| `Configuration.ReorderedIsIgnored` | internal/configuration/configuration.go:126-136 | past the initial phase a message that asks for what is in force, in any order, is ignored if and only if its workloads come with the labels they need |
| `Configuration.RepeatPassesExactly` | internal/configuration/configuration.go:150-177 | a stored message sent again passes the gate if and only if a workload in it comes without a label it needs |
| `Configuration.RepeatedForever` | internal/configuration/configuration.go:117-180 | and so for every repetition |
| `Configuration.AutoUpdateIsNeverSettled` | internal/configuration/configuration.go:117-180 | a concrete message that is never settled |
| `Configuration.MemoryDiffersFromFile` | internal/configuration/configuration.go:138-177 | over every run memory differs from the message in the file exactly when that came without a label |
| `Configuration.GateIsInForce` | internal/configuration/configuration.go:117-136 | a message passes the gate exactly in the initial phase, when it asks for something not in force, or when a workload in it comes without a label it needs |
| `Configuration.IdentityTakenExactly` | internal/configuration/configuration.go:117-180 | a new version or device id gets into memory exactly when something else lets the message pass, and it is stored |
| `Configuration.ToldIsInForceExactly` | internal/configuration/configuration.go:138-180 | over every run with restarts, what the observers were told last is in force except exactly after a message that asked for something new and could not be stored |
| `Configuration.RepeatLeavesObserversWrong` | internal/configuration/configuration.go:126-136 | repeating the configuration in force then puts them right exactly when it lacks a label, and so passes, and can be encoded |
| `Configuration.RunsTakeEffect` | internal/configuration/configuration.go:52-180 | over every run with failing writes and restarts, and a restart brings back what memory held, once the workload manager is registered, unless a write garbled the file |
| `Configuration.RepeatAfterRestartExactly` | internal/configuration/configuration.go:58-69 | after a restart the message in the file passes the gate again exactly when it lacks a label |
| `Configuration.InitialExactly` | internal/configuration/configuration.go:58-62 | over every run the phase is initial exactly when the process found no file and has stored nothing since |
| `Configuration.Manager.RegisterObserver` | internal/configuration/configuration.go:83-91 | the observer is told the configuration, and the workload manager labels it in place |
| `Configuration.Manager.Update` | internal/configuration/configuration.go:117-180 | every observer is told exactly the messages that pass the gate and can be encoded, those after the workload manager with its labels; memory, file and reported errors for every outcome of the write |
| `TaskIds.HostsShareId` | internal/ansible/dispatcher/dispatcher_events.go:251-267 | the hosts of a task share one id exactly when the id given to the first is not that of several tasks |
| `TaskIds.NextNumber` | internal/ansible/dispatcher/dispatcher_events.go:251-267 | each repeated task gets the next number of its id although the counter runs across plays and ids are renamed in place, unless a numbered form of a repeated id is itself repeated |
| `TaskIds.NumberingDistinguishes` | internal/ansible/dispatcher/dispatcher_events.go:251-267 | the tasks of a play that have a host end up with different ids if and only if none has, unrepeated, the id a repeated one gets; so always with plain ids |
| `TaskIds.PlaysShareExactly` | internal/ansible/dispatcher/dispatcher_events.go:251-267 | tasks of different plays end up with one id if and only if both started with it, unrepeated, or one has the id the other one gets |
| `TaskIds.NumberedInjective` | internal/ansible/dispatcher/dispatcher_events.go:251-267 | a numbered id tells id and number, whatever the id |
| `TaskIds.UnderscoreSplitsHosts` | internal/ansible/dispatcher/dispatcher_events.go:251-267 | with underscores in original ids the hosts of a task can be split |
| `TaskIds.UnderscoreMergesTasks` | internal/ansible/dispatcher/dispatcher_events.go:251-267 | and the tasks "a", "a", "a_1" end up with the first and the third under one id |
| `Playbook.PlaybookOnTaskStart` | internal/ansible/dispatcher/dispatcher_events.go:242-288 | the renaming in place and the event under the new id |
| `Playbook.TransformTask` | internal/ansible/dispatcher/dispatcher_events.go:71-101 | one pair of events per host, in any host order, consecutively counted |
| `Playbook.TransformPlay` | internal/ansible/dispatcher/dispatcher_events.go:58-106 | play start, all pairs in task order, stats; unless the hosts of a task can be split they share the final id of their task, different tasks differ exactly when none has the id another one gets, and outcome events still point to their uuid; counters never go back |
| `Playbook.EventTransformer` | internal/ansible/dispatcher/dispatcher_events.go:53-108 | the log is well formed for every results tree and host order, the k-th event has counter k |
| `Playbook.EventsSay` | internal/ansible/dispatcher/dispatcher_events.go:71-101 | in every good log: the outcome kind tells whether the host failed, was skipped or is fine; parents, names, output and the fields of play start and statistics |
| `Playbook.EventsInOrder` | internal/ansible/dispatcher/dispatcher_events.go:53-108 | the counters put play start, pairs in task order with each outcome directly behind its start, and statistics in this order, play after play |
| `Playbook.UuidsAcrossPlays` | internal/ansible/dispatcher/dispatcher_events.go:53-108 | exactly when tasks of different plays of one playbook share a uuid |
| `Playbook.PlainAreDisambiguated` | internal/ansible/dispatcher/dispatcher_events.go:251-267 | with plain ids the hosts of a task share a uuid and different tasks of a play do not |
| `Playbook.LogLengthIs` | internal/ansible/dispatcher/dispatcher_events.go:53-108 | the log has two events per play and two per host entry |
| `Playbook.NeverPlaybookStart` | internal/ansible/dispatcher/dispatcher_events.go:61-64 | no playbook start event is ever emitted |
| `Playbook.AnsibleDispatcher.AddEvent` | internal/ansible/dispatcher/dispatcher_events.go:38-42 | the events of a playbook follow those collected before |
| `Heartbeat.FullUntilFirstSuccess` | internal/heartbeat/heartbeat.go:133-140 | before the first successful push every heartbeat with readable hardware carries the full information |
| `Heartbeat.DeltasRebuildDevice` | internal/heartbeat/heartbeat.go:125-157 | without failures after the first success a merging receiver holds hostname and interfaces of the last snapshot taken, however scope and inclusion are toggled |
| `Heartbeat.FullScopeRepairs` | internal/heartbeat/heartbeat.go:125-157 | whatever was lost before, from a full-scope push on the receiver holds hostname and interfaces of the last snapshot taken, while no push fails |
| `Heartbeat.LostUntilFullScope` | internal/heartbeat/heartbeat.go:295-302 | over any later deltas, sent or not, of unchanged hardware the receiver is right if and only if the failed push carried no change |
| `Heartbeat.MountsOnlyInFullScope` | internal/hardware/hardware.go:140-150 | over any later deltas, sent or not, the receiver is right about the mounts if and only if they are those last told in full |
| `Heartbeat.NoInterfacesAreNeverTold` | internal/hardware/hardware.go:140-150 | while there are no interfaces the receiver keeps those it knew, whatever the scope |
| `Heartbeat.LaterMessagesAreMutable` | internal/heartbeat/heartbeat.go:133-141 | over every run no message after the first push tried with hardware since the first success carries the immutable part |
| `Heartbeat.FullInformationCanBeLost` | internal/heartbeat/heartbeat.go:133-141 | over every run some sent message carries the immutable part if and only if the first push with hardware from the first success on is sent with it |
| `Heartbeat.FullInformationIsLostForGood` | internal/heartbeat/heartbeat.go:295-302 | a run in which it is lost for good, however long it goes on |
| `Heartbeat.HeartbeatService.PushInformation` | internal/heartbeat/heartbeat.go:276-308 | message and state after a push, sent or not |
| `FifoLog.FIFOLog.Write` | internal/logs/log_container.go:66-81 | an entry is taken exactly while the limit is not exceeded, and the size stays the sum of the entries |
| `FifoLog.FIFOLog.ReadLine` | internal/logs/log_container.go:84-94 | the first entry is taken, never from an empty queue; nothing is returned exactly when all queued entries are empty |
| `FifoLog.RunsConserve` | internal/logs/workload.go:24-46 | accepted entries are delivered, queued, in flight or dropped at requeueing, in every interleaving |
| `FifoLog.RunsStayBounded` | internal/logs/log_container.go:73-80 | the queue never holds more than the limit and one largest entry |
| `FifoLog.DeliversInOrder` | internal/logs/workload.go:29-44 | without transport failures nothing is lost and entries are delivered in the order accepted |
| `FifoLog.FailedGoesLast` | internal/logs/workload.go:36-43 | an entry whose delivery failed is delivered after those queued by then and before those accepted later |
| `FifoLog.TakeFindsData` | internal/logs/log_container.go:84-94 | an entry is found exactly when some queued one has data, and it is the first |
| `FifoLog.EntriesWithoutDataWait` | internal/logs/log_container.go:84-94 | while only entries without data are accepted nothing is delivered |
| `FifoLog.LostExactlyWhenFull` | internal/logs/workload.go:36-43 | over every run and interleaving some entry has been lost exactly when at some time the transport failed while the queue was over its limit |
| `FifoLog.NothingLostWithinLimit` | internal/logs/workload.go:24-46 | a workload that has written no more than the limit has lost nothing, however often the transport failed |
| `FifoLog.TransportLog.SendNext` | internal/logs/workload.go:36-44 | a failed entry goes to the back of the queue or is lost |

## Left out

- Request encoding (`toTimeSeries`, protobuf, snappy), TLS, CA files and URL parsing: a request is the list of series it carries, whether it can be encoded and whether a client can be built are arbitrary outcomes.
- RemoteWriter.RemoteWrite.Write: one iteration sees one state of the store, so a compaction between its reads of Blocks and HeadMinTime is not modelled; and a call is followed for as many iterations as its horizon says, while the source has no such bound (`Calls.CallsEnd` gives a horizon that no call reaches).
- RemoteWriter.RemoteWrite.WriteRange: requires a sample count other than zero, which is refused with the configuration (`Lifecycle.BusyCountIsNotZero`).
- Opening, querying, retention and appending of the metrics store itself.
- Wrapper.Workload.Remove: podman is told whether it is given an id or a name; a workload named like the id of another pod is not modelled.
- Names with path separators, file permissions and partly written files other than the cursor and the configuration file.
- YAML and JSON encoding: a manifest is the text its specification renders to, and a file is its abstract content; that an empty label map or list reads back as a missing one is not modelled.
- Label writes end with the deregistration of the workload manager; configuration messages after it are not modelled. The data directory in the auth file label is the default one.
- Manager.WorkloadManager.Deregister: the content of the services file is not modelled, deleting it is an arbitrary outcome.
- Starting, stopping and observing pods, pod reports and firewall rules beyond the chain of a workload.
- Host lists, durations and statistics inside job events, and the executor events: plain copying.
- The registration retry after an unauthorized heartbeat, heartbeat tickers and overlapping pushes.
- Replacing log transports on configuration updates: only the queue and its drain loop are modelled.
- Logging, sleeping and wall-clock time.
