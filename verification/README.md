# MeshSync, modelled and verified in Dafny

MeshSync watches a Kubernetes cluster with informers and publishes what it sees to a broker or to
files. This project models the parts of it where correctness depends on state, order and failure,
and proves what they are for.

- **Publish path** (`event_handlers.dfy`, `content_deduplicator.dfy`, `dedup_interleaving.dfy`,
  `concurrent_replica.dfy`).
  Informer notifications become events, pass the event and namespace filters, and reach a writer
  that suppresses what the consumer already holds. The main results say that suppression is
  invisible to the consumer, under failing writes, failing hashes, resyncs and concurrent callers,
  and say exactly which of the consumer's entries can be stale.
- **Other writers** (`buffered_deduplicator.dfy`, `file_output.dfy`, `chunked_output.dfy`).
  The buffer with its flush epochs, the streaming filter and the composite of file mode, and the
  output that is sent in pieces.
- **Sessions** (`sessions.dfy`). Exec and log-stream sessions as a step machine over every atomic
  step of every goroutine, with the registry they share.
- **Discovery control** (`watched_resources.dfy`, `informer_pipeline.dfy`, `debounced_restart.dfy`,
  `crd_watch_backoff.dfy`). CRD events fold into the watched list, changes request a resync,
  resyncs are debounced into restarts, each restart registers handlers afresh, and a failing CRD
  watch backs off.
- **Identity** (`names.dfy`, `resource_records.dfy`). Pipeline names, session ids and resource ids,
  each with a decoder that shows it is unambiguous.

`sequences.dfy` holds shared notions about sequences, `resources.dfy` the values that travel and the
consumer: last write wins per UID, a DELETE removes, and events without a UID are kept as a sequence. Code that changes state is a class or a
method proved against a specification function; concurrent code is a step machine whose runs are
arbitrary interleavings. The order of a Go map's iteration, the answers of a real writer or of the
broker, random draws and UUIDs are nondeterministic choices; which accesses of the configuration store
fail is an arbitrary function of the access number.

## Assumptions

These are preconditions of the lemmas that need them, and of no others.

- The content hash is injective where it succeeds, and may fail (`Injective`). It is a function of
  the resource alone.
- A write that reports an error left the consumer unchanged. `UnreportedDeliverySticks` shows what
  happens otherwise, and `SuppressionMissesExactlyWhen` when.
- At most one `Write` per UID is in flight, as one informer listener delivers serially
  (`SerialPerUid`). `OverlapBreaksAgreement` shows what happens otherwise, and
  `OverlapMissesExactlyWhen` when.
- Notifications are genuine (`Genuine`): an add is for a key not stored, an update carries the
  stored object and equal resource versions mean equal objects, a delete is for a stored key, and
  no two stored objects share a UID or have an empty one. Updates need not keep the UID.
- The conversion keeps the UID and gives the same record for ADD and UPDATE (`Converts`).
- For agreement, pipelines publish all three event types (`AllEvents`).
- For `StopIsNeverLost`, an id is used again only when the receivers of its earlier sessions are done
  (`ReusesLate`); their other goroutines may still be returning. `StopGoesForward` and
  `LosableExactlyWhen` hold in every interleaving and say where stops go, and exactly when one can be
  lost.
- For `OneChannelOpen` and the results about the cleanup, a restart runs on its own: it ends before
  the next resync or stop signal is taken, and does not begin while a signal waits for its debounced
  call or while the loop cleans up (`Orderly`). Each part is needed, and one run breaks it:
  `SignalDuringRestartLeaks`, `StopDuringRestartClosesTwice`, `FireBeforeCallLeaks` and
  `FireDuringCleanupClosesTwice`. In every interleaving, without any of it, `ClosedOnceExactlyWhen` and
  `OneOpenFreelyExactlyWhen` give the exact conditions; `SoloClosesOnce` and `OneOpenExactlyWhen` ask
  only that restarts run one at a time with the loop running.
- The global stop channel is closed, not sent on, at shutdown (pkg/lib/meshsync/meshsync.go:265), so it
  releases every receiver. A TTY or a stream ends at some time, as it does when its pipes are closed.
- Shutting an informer factory down, which client-go does, waits until its informers have stopped;
  informers stop when their channel is closed.
- The pipeline engine, which is not part of this model, stops at the first step that returns an error.
- A broker unsubscribes by subject: a success ends every subscription to `input.<id>`, a failure none.

## Findings

Where the code keeps less than one might expect, a lemma shows the run.

- `UnreportedDeliverySticks`, `SuppressionMissesExactlyWhen`: when a publish fails after it was delivered, going back to the earlier
  content is suppressed and the consumer keeps the other one.
- `OverlapBreaksAgreement`, `OverlapMissesExactlyWhen`: two overlapping writes of one UID can record
  in the other order than they published, which wedges the UID.
- `ReplacedObjectLingers`, `AgreementAcrossResyncs`: an object that is replaced under its key, or
  that goes away during a resync, is never deleted from the consumer; the two stores are equal
  exactly when no UID was left behind in this way.
- `AgreementNeedsAllEvents`: with any event type missing from a pipeline, a two-step run disagrees.
- `FailedUnsubscribeDoubles`: teardown goes on when its unsubscribe fails, so the next session under
  the id has two live input subscriptions; `OneSubscriptionExactlyWhen` says exactly when this happens.
- `ServiceApisStartsNothing`: the shipped local list has the name `service.apis`
  (`internal/config/default_config.go:105`), which does not parse. Its step fails, and the discovery
  starts no informer at all, unless a watch list or a resource restriction leaves the name out.
- `EarlyReuseLosesStop`: an input loop that outlives its session takes the stop of the next one;
  `LosableExactlyWhen` says from which states on this can happen.
- `StopDuringRestartClosesTwice`, `FireDuringCleanupClosesTwice`, `OverlappingRestartsCloseTwice`: a
  channel is closed twice, which panics, when a stop is taken in the middle of a restart, when the
  timer fires while the loop cleans up, and when two restarts overlap. `ClosedOnceExactlyWhen` covers
  all runs.
- `SignalDuringRestartHangs`, `SignalDuringRestartLeaks`: a resync signal in the middle of a restart
  remembers the channel that the restart closes. Its own restart then waits for informers on the
  current channel, which it leaves open: it hangs (`HangsForGood`), or, if its rebuild fails, leaves
  two channels open. It leaves informers running on the older one only in the latter case
  (`LeakedInformersNeedFailure`).
- `FireBeforeCallLeaks`: so does a timer that fires between a resync signal and its debounced call,
  with no signal during any restart. `RestartLeaksExactlyWhen` and `OneOpenExactlyWhen` give the exact
  condition: the restart remembers a channel that is no longer the current one.
- `FiresAfterQuiet`: the quiet period is counted from debounced calls, so a restart can fire soon after
  a signal, but only after one whose call is still to come.
- `PendingRequestReopens`, `ReopensExactlyWhenPending`: a resync pending when the loop stops starts a
  discovery that nobody ends.
- `LogsCompleteExactlyWhen`: the log loop drops bytes that a read returns together with an error;
  the exec loop does not.
- `StaysApart`, `OneHandlerExactlyWhen`, `OneWriteExactlyWhen`: an ADDED event for a name of the local
  list gets its resource a second handler, and with it its events a second write, as the update step
  consults the global list only.
- `DottedNamespaceCollides`, `PipelineNameRoundTrip`: the dotted texts are ambiguous outside the
  naming rules of Kubernetes.

The comment in `internal/output/content_deduplicator.go:90-124` speaks of the last successfully
published payload. After a delete or a payload that cannot be hashed the cache holds nothing, as
`CacheIsLastSubmission` states in full. The comment in `meshsync/exec.go:339-342` calls a dropped
stop signal safe because sessions end by themselves; what holds is that a signal is dropped
only when one is pending already.

## Model

| member | source | states |
|---|---|---|
| `ContentDeduplicator.ContentDeduplicatorWriter.Write` | internal/output/content_deduplicator.go:65-125 | One call moves the cache and the attempts as `Written` says, whatever the real writer answers; it errs if and only if it reached the real writer and that refused the event |
| `ContentDeduplicator.SuppressionPreservesMeaning` | internal/output/content_deduplicator.go:65-125 | After any submissions with any failures, the consumer is what applying every event would have made it, except those whose write failed; the cache still agrees with it |
| `ContentDeduplicator.SuppressedIsNoOp` | internal/output/content_deduplicator.go:106-112 | Applying a suppressed event to the consumer changes nothing |
| `ContentDeduplicator.WriteKeepsAgreement` | internal/output/content_deduplicator.go:65-125 | One call keeps every cached hash equal to the hash of the consumer's entry, and moves the consumer as if nothing were suppressed |
| `ContentDeduplicator.CacheIsLastSubmission` | internal/output/content_deduplicator.go:50-53 | The cache entry of a UID, told from the submissions alone: the newest that was a DELETE, unhashable or written without error decides |
| `ContentDeduplicator.CacheCoherence` | internal/output/content_deduplicator.go:29-34 | A cached hash is that of the UID's last delivered event, which was no DELETE, and neither was the last event submitted |
| `ContentDeduplicator.SuppressedExactlyWhenCurrent` | internal/output/content_deduplicator.go:90-112 | If and only if: a call does not reach the real writer when it is a hashable ADD or UPDATE equal in hash to what the submissions left cached |
| `ContentDeduplicator.RetryReachesWriter` | internal/output/content_deduplicator.go:114-119 | After a failed write, the same payload reaches the real writer again as long as nothing for its UID succeeded in between |
| `ContentDeduplicator.ForwardedLogIsMinimal` | internal/output/content_deduplicator.go:106-124 | In every run, no UID has the same content forwarded twice in a row after a success |
| `ContentDeduplicator.UnreportedDeliverySticks` | internal/output/content_deduplicator.go:114-119 | A delivered write that reports failure lets the cache suppress the way back: the consumer keeps the wrong content |
| `ContentDeduplicator.SuppressionMissesExactlyWhen` | internal/output/content_deduplicator.go:109-124 | If and only if: with writes that may deliver and report failure, a suppressed event leaves the consumer with something else when the newest arrival for its UID was not reported and carries other content |
| `DedupInterleaving.ReachableIsTracked` | internal/output/content_deduplicator.go:90-124 | In every reachable state of serial callers, each UID's cache entry and attempts match the sequential writer at the step its call has reached |
| `DedupInterleaving.CallsReturn` | internal/output/content_deduplicator.go:83-124 | Every step of a call brings it closer to its return, which is within three steps, with its own event, and in error if and only if it published and the real writer failed |
| `DedupInterleaving.InterleavingIsInvisible` | internal/output/content_deduplicator.go:90-124 | A UID with no call in flight has the attempts and the cache entry of running its own calls one after the other, in the order made |
| `DedupInterleaving.RunSplitsByUid` | internal/output/content_deduplicator.go:65-125 | The sequential writer treats each UID as if it were alone |
| `DedupInterleaving.ConsumerSplitsByUid` | internal/output/content_deduplicator.go:35-36 | What the consumer holds for a UID depends on that UID's attempts only |
| `DedupInterleaving.ConcurrentRunLinearizes` | internal/output/content_deduplicator.go:90-124 | When all calls have returned, the cache, each UID's attempts and the whole consumer, UID-less events included, are those of a sequential run in return order |
| `DedupInterleaving.OverlapBreaksAgreement` | internal/output/content_deduplicator.go:106-123 | Two overlapping calls of one UID reach a state where every write succeeded, the cache vouches for one payload and the consumer holds the other |
| `DedupInterleaving.OverlapMissesExactlyWhen` | internal/output/content_deduplicator.go:106-123 | If and only if: with calls overlapping in any way, an event is suppressed while the consumer holds something else when its content is the one recorded last, but not the one published last |
| `EventHandlers.RegisterInformer.PublishItem` | internal/pipeline/handlers.go:84-114 | A nil object, an unlisted event type or a foreign namespace writes nothing; anything else is one write of its conversion |
| `EventHandlers.RegisterInformer.AddFunc` | internal/pipeline/handlers.go:16-23 | An add notification makes the writer take the event `Emits` gives, or none |
| `EventHandlers.RegisterInformer.UpdateFunc` | internal/pipeline/handlers.go:24-49 | The same for an update; equal resource versions write nothing |
| `EventHandlers.RegisterInformer.DeleteFunc` | internal/pipeline/handlers.go:50-76 | The same for a delete: a tombstone is unwrapped once, anything that is then no object writes nothing |
| `EventHandlers.EmitsExactlyWhen` | internal/pipeline/handlers.go:14-135 | If and only if: a notification is published when it is about a changed object whose namespace a non-empty restriction names and whose pipeline lists the event type; it is published as the conversion of that object |
| `EventHandlers.AttemptsAreWanted` | internal/pipeline/handlers.go:84-135 | In every run, no attempt carries an object outside a non-empty namespace restriction, an unlisted event type, or an object never notified |
| `EventHandlers.UnchangedVersionsAreSilent` | internal/pipeline/handlers.go:28-48 | An update with an unchanged version leaves log and cache as they were; there are at most as many attempts as changes |
| `EventHandlers.VisibleAfter` | internal/pipeline/handlers.go:116-135 | A notification changes which UIDs pass the namespace filter under its own key only |
| `EventHandlers.ReplicaAgrees` | internal/pipeline/handlers.go:14-135 | In every genuine run with resyncs and failures, the consumer holds the visible live objects with their current content and nothing else, but for the UIDs in `stale` |
| `EventHandlers.ReplicaAgreesInScope` | internal/pipeline/handlers.go:122-125 | The same with the restriction spelled out: the consumer holds the live objects whose namespace is named, or all when none is, and nothing else, but for `stale` |
| `EventHandlers.StaleAreOrphans` | internal/output/content_deduplicator.go:38-45 | When all writes succeed, `stale` is exactly what the consumer holds and the informers do not |
| `EventHandlers.AgreementAcrossResyncs` | internal/output/content_deduplicator.go:38-45 | Across any resyncs, each visible object in an informer's store is in the consumer with its current content; the stores are equal if and only if nothing was left behind |
| `EventHandlers.AgreementInScope` | internal/pipeline/handlers.go:122-125 | The same with the restriction spelled out: every live object in scope is in the consumer, and all the consumer holds is in scope if and only if `stale` is empty |
| `EventHandlers.OneGenerationMirrors` | internal/pipeline/handlers.go:14-78 | Without resyncs and replacements, and with every delete naming its object, the two stores are equal |
| `EventHandlers.ReplacedObjectLingers` | internal/pipeline/handlers.go:24-49 | An update that changes the UID leaves the old object in the consumer |
| `EventHandlers.AgreementNeedsAllEvents` | internal/pipeline/handlers.go:91-94 | For any missing event type there is a short genuine run that ends with different stores |
| `ConcurrentReplica.ConcurrentStoreIsReplayed` | internal/output/content_deduplicator.go:90-124 | Whatever the calls of different UIDs overlap in, the consumer's store is that of handling the notifications one at a time |
| `ConcurrentReplica.ConcurrentReplicaAgrees` | internal/pipeline/handlers.go:14-135 | With concurrent listeners, resyncs and failing writes, the quiescent consumer holds exactly the visible live objects, but for the UIDs in `stale` |
| `ConcurrentReplica.ConcurrentAgreementAcrossResyncs` | internal/output/content_deduplicator.go:38-45 | With concurrent listeners and succeeding writes, each visible object is in the quiescent consumer with its current content; the stores are equal if and only if nothing was left behind |
| `ConcurrentReplica.ReachableNewest` | internal/pipeline/handlers.go:84-114 | For each visible live object, the newest event sent to the writer carries its current content |
| `ConcurrentReplica.OutOfDateExactlyWhen` | internal/output/content_deduplicator.go:114-124 | If and only if: after failing writes, a visible object is out of date at the consumer when the newest event that survived does not carry what the newest one sent did |
| `ConcurrentReplica.HeldExactlyWhen` | internal/output/content_deduplicator.go:83-88 | If and only if: the consumer holds a UID when its newest surviving event is no DELETE |
| `BufferedDeduplicator.InMemoryDeduplicatorWriter.Write` | internal/output/inmemory_deduplicator.go:36-62 | Never fails and never writes through; replaces the entity of the UID, or appends when there is none |
| `BufferedDeduplicator.InMemoryDeduplicatorWriter.Swap` | internal/output/inmemory_deduplicator.go:65-71 | Takes the whole buffer and leaves it empty |
| `BufferedDeduplicator.InMemoryDeduplicatorWriter.Drain` | internal/output/inmemory_deduplicator.go:73-92 | Attempts the one event of each UID of the batch once and its UID-less events in order, and no other, whatever fails; errs if and only if some attempt failed |
| `BufferedDeduplicator.InMemoryDeduplicatorWriter.Flush` | internal/output/inmemory_deduplicator.go:64-93 | The same of all that was buffered, leaving the buffer empty |
| `BufferedDeduplicator.InMemoryDeduplicatorWriter.RunAll` | internal/output/inmemory_deduplicator.go:36-93 | Writes and flushes in any order: what the real writer is offered are the flushes' attempts one after the other; each flush attempts, of the events written since the one before, the last of each UID once and all UID-less ones in order |
| `BufferedDeduplicator.EveryWriteInOneEpoch` | internal/output/inmemory_deduplicator.go:36-71 | Under any interleaving the writes split into flush epochs with none lost or repeated, and each flush takes the last event per UID and all UID-less events of its own epoch |
| `FileOutput.InMemoryDeduplicatorStreamingWriter.Write` | internal/output/inmemory_deduplicator_streaming.go:28-49 | The first event of a UID is attempted and marks it even when the attempt fails; later ones do nothing; UID-less ones are always attempted; errs if and only if the file refused the event |
| `FileOutput.CompositeWriter.Write` | internal/output/composite.go:22-40 | Every writer of the pool takes the event, whatever the others answer, and fails if and only if its file refused it; errs if and only if one of them did |
| `FileOutput.CompositeWriter.WriteAll` | internal/output/composite.go:22-40 | Over a run of events each writer goes through all of them as if it were alone, with its own outcomes |
| `FileOutput.FirstsMeaning` | internal/output/inmemory_deduplicator_streaming.go:36-48 | The kept positions ascend and are exactly the first of each UID and every one without a UID |
| `FileOutput.StreamingKeepsFirsts` | internal/output/inmemory_deduplicator_streaming.go:28-49 | Over whole runs the attempts are exactly the events at those positions, whatever the attempts answer |
| `FileOutput.FileOutputsAgree` | pkg/lib/meshsync/meshsync.go:164-207 | The extended file is offered every event; the other one the subsequence of firsts, with the same UIDs and no UID twice, whatever failed in either |
| `FileOutput.WriteFiles` | pkg/lib/meshsync/meshsync.go:164-207 | The same of the two files behind the composite, with the extended one left out unless asked for |
| `ChunkedOutput.StreamStdout` | meshsync/exec.go:257-280 | The chunks published concatenate to the bytes read up to and with the first error, each of 1 to 1024 bytes, although one buffer serves all reads |
| `ChunkedOutput.StreamLogs` | meshsync/logstream.go:79-108 | The chunks concatenate to the bytes of the reads before the first error, each of 1 to 2000 bytes |
| `ChunkedOutput.LogsCompleteExactlyWhen` | meshsync/logstream.go:79-94 | If and only if: the log loop publishes all it read when no bytes came with the error |
| `ChunkedOutput.SplitIntoMultipleSlices` | meshsync/handlers.go:533-551 | The batches concatenate to the list, none is empty, and all but the last are exactly full |
| `SessionRegistry.Handler.AddSession` | meshsync/sessions.go:21-38 | Creates an entry with an empty channel if and only if the id has none; otherwise returns the one there and changes nothing |
| `SessionRegistry.OpenerIsFirstSinceDrop` | meshsync/sessions.go:21-54 | After any adds and deletes, the channel an id finds is that of its first add since it was last deleted; it finds none when there was no such add |
| `SessionRegistry.Handler.RunAll` | meshsync/sessions.go:21-54 | The registry's methods, run in any order, leave each id with exactly the channel that add created, and no two adds share one |
| `SessionRegistry.Handler.DeleteSession` | meshsync/sessions.go:50-54 | Removes the entry of this id and no other |
| `SessionRegistry.Handler.ExecCleanup` | meshsync/exec.go:333-347 | A registered session's slot is full afterwards, no other channel changes, and the call never blocks |
| `SessionProtocol.ReachableInvariant` | meshsync/exec.go:158-331 | The protocol invariant, kept by every step of every goroutine, with subscribing and unsubscribing that may fail, holds in every interleaving |
| `SessionProtocol.RequestBegins` | meshsync/exec.go:90-103 | A start request begins a registered session of its kind if and only if its id has none, and changes nothing otherwise |
| `SessionProtocol.OwnStepAdvances` | meshsync/exec.go:175-320 | Every step of its own goroutines brings a session closer to its end: setting up or failing to, leaving on `done` or the global stop, the end of TTY or stream, each step of the cleanup |
| `SessionProtocol.InputIsPaidFor` | meshsync/exec.go:291-311 | So do handling a queued input message and taking a stop |
| `SessionProtocol.OthersKeepWeight` | meshsync/exec.go:282-319 | No step of another session or of a request sets it back |
| `SessionProtocol.EndedExactlyWhen` | meshsync/exec.go:158-320 | If and only if: in every reachable state, a session has ended, with all goroutines returned, its cleanup complete and its id no longer its own, when it has no step of its own left |
| `SessionProtocol.EverySessionEnds` | meshsync/logstream.go:50-130 | From every reachable state, once its TTY or stream ends, steps of its own alone bring a session to that end, in boundedly many steps |
| `SessionProtocol.StopsAreTakenOnce` | meshsync/sessions.go:32-36 | A slot is filled by a send only and emptied by every take |
| `SessionProtocol.SessionGenerations` | meshsync/exec.go:170-213 | An id is registered to a generation exactly until that generation's own cleanup removes it; `done` is closed at most once |
| `SessionProtocol.LiveExactlyWhen` | meshsync/exec.go:186-200 | If and only if: a subscription is live when it succeeded and no unsubscribe of its id has succeeded since |
| `SessionProtocol.LiveIsRegisteredOrFailed` | meshsync/exec.go:177-195 | A live subscription is that of the registered generation, or its own unsubscribe has failed |
| `SessionProtocol.OneSubscriptionExactlyWhen` | meshsync/exec.go:177-200 | If and only if: each id has at most one live subscription unless some generation's unsubscribe failed, none of its id has succeeded since, and a later session subscribed in the meantime |
| `SessionProtocol.FailedUnsubscribeDoubles` | meshsync/exec.go:327-331 | A run with one failed unsubscribe after which an id has two live subscriptions |
| `SessionProtocol.TeardownIsLocal` | meshsync/exec.go:177-195 | No cleanup removes another generation's entry, even under the same id, nor its subscription, but for one that an earlier generation of the id failed to end |
| `SessionProtocol.PatientInvariant` | meshsync/sessions.go:32-35 | When ids are reused after their earlier receivers are done, a receiver waits on its own channel, and a signal sent to it is there or was taken by it |
| `SessionProtocol.StopIsNeverLost` | meshsync/sessions.go:32-37 | With such reuse, every stop that found a session is in its slot or was taken by its own receiver, which then stopped |
| `SessionProtocol.PendingStopStays` | meshsync/exec.go:309-311 | With such reuse, a pending stop leaves its slot only when the session's own receiver takes it and stops |
| `SessionProtocol.EarlyReuseLosesStop` | meshsync/exec.go:282-311 | With early reuse there is a run in which an old input loop takes the new session's stop |
| `SessionProtocol.ReachableForward` | meshsync/exec.go:282-318 | In every interleaving a receiver waits on its own channel or on that of a later session of its id |
| `SessionProtocol.StopGoesForward` | meshsync/exec.go:282-311 | In every interleaving a recorded stop is in its slot, was taken by its own receiver, which then stopped, or an earlier session of the id has taken a stop |
| `SessionProtocol.LosableExactlyWhen` | meshsync/exec.go:282-311 | If and only if: some continuation of a run loses a stop of a session when one is lost already, or the session has taken none and an earlier session of its id has a receiver that waits on its channel with a stop there or to come, or may still look the id up |
| `WatchedResources.DeletePipeline` | internal/config/types.go:49-57 | Removes the first entry with the name, if any, and keeps all others in order |
| `WatchedResources.Config.SetObject` | meshsync/handlers.go:524-526 | The configuration is replaced, or the access fails and leaves it as it was |
| `WatchedResources.Handler.UpdatePipelineConfig` | meshsync/handlers.go:482-528 | An error if and only if an access it makes fails, and then nothing changed; otherwise the global list is reflected and `changed` tells whether it differs |
| `WatchedResources.Handler.HandleCRDEvent` | meshsync/handlers.go:417-458 | An event with a GVR whose accesses succeed is reflected in the list, any other leaves it; one resync is requested if and only if the configuration changed |
| `WatchedResources.Handler.HandleCRDEvents` | meshsync/handlers.go:391-402 | Handling a run of events leaves the list that `Watch` folds from their outcomes, and requests as many resyncs as there were changes; with no failing access every outcome is good |
| `WatchedResources.LastEventWins` | meshsync/handlers.go:488-527 | From distinct names, after any events with any failing accesses, names are distinct, and a name is watched if and only if its last ADDED or DELETED event whose accesses succeeded was ADDED, or it had none and was watched at first |
| `WatchedResources.ChangedMeansNamesChanged` | meshsync/handlers.go:474-481 | `changed` if and only if the set of names changed |
| `WatchedResources.AddedGoesLast` | meshsync/handlers.go:505-511 | An ADDED event keeps the list as a prefix and puts a new name last, with the default subject and all event types |
| `WatchedResources.RelistChangesNothing` | meshsync/handlers.go:497-504 | Listing present CRDs again, in any order and any number of times, changes nothing and requests no resync |
| `WatchedResources.UntouchedStayInOrder` | internal/config/types.go:37-57 | Entries that no successful event adds or deletes stay, unaltered and in order |
| `WatchedResources.EntriesAreGivenOrDefault` | meshsync/handlers.go:505-511 | Every entry was there at first, or was added by a successful ADDED event and publishes every event type to the default subject |
| `InformerPipeline.FilterWhitelistedPipelines` | internal/config/crd_config.go:154-164 | The result is made of exactly the pipelines whose name the whitelist has, in order, with name and subject kept and the events of the first entry of the name |
| `InformerPipeline.FilterBlacklistedPipelines` | internal/config/crd_config.go:183-192 | The result is made of exactly the pipelines whose name the blacklist has not, in order, with name and subject kept and all event types |
| `InformerPipeline.IndexOfMeaning` | internal/config/crd_config.go:157-159 | The index found is the first of the name; none is found if and only if the name is absent |
| `InformerPipeline.FilterKeepsOrder` | internal/config/crd_config.go:154-192 | A filter's result is made of exactly the chosen entries, at ascending positions |
| `InformerPipeline.FilterKeepsDistinct` | internal/config/crd_config.go:154-192 | Filtering keeps names distinct and invents none |
| `InformerPipeline.WatchListsKeepNames` | internal/config/crd_config.go:157-188 | Both watch lists change events only, never names |
| `InformerPipeline.StageFor` | internal/pipeline/pipeline.go:35-41 | A stage holds the wanted configurations in order |
| `InformerPipeline.RestrictionExactly` | internal/pipeline/pipeline.go:79-88 | A stage holds exactly the configurations whose name, up to its first dot, is among the wanted resources, or all when none are given, unaltered and in order |
| `InformerPipeline.StepsHoldExactly` | internal/pipeline/pipeline.go:29-56 | If and only if: a name has a step when one of the lists has it and the resource restriction lets it through |
| `InformerPipeline.New` | internal/pipeline/pipeline.go:15-77 | The stages run the wanted global steps, then the wanted local ones, then start the informers; no register stage is empty |
| `InformerPipeline.InformerFactory.Exec` | internal/pipeline/step.go:45-68 | Fails if and only if the name does not parse, and then registers nothing; else one handler and one store entry more |
| `InformerPipeline.InformerFactory.RunSteps` | internal/pipeline/step.go:45-68 | Running the steps registers the handlers of all steps before the first that fails; stores are keyed by exactly the names |
| `InformerPipeline.InformerFactory.Run` | meshsync/discovery.go:34-39 | A discovery registers the handlers of the steps before the first that fails; the informers start if and only if none does |
| `InformerPipeline.DistinctStepsDistinctHandlers` | internal/pipeline/step.go:46-56 | Distinct names register no resource twice |
| `InformerPipeline.StaysApart` | meshsync/handlers.go:492-511 | If and only if: the two lists share no name when no local name's last ADDED or DELETED event was ADDED |
| `InformerPipeline.OneHandlerPerResource` | internal/pipeline/pipeline.go:24-77 | After watch lists, any CRD events for names that are not local and any resource restriction, a discovery registers no resource twice |
| `InformerPipeline.OneHandlerExactlyWhen` | internal/pipeline/pipeline.go:29-56 | If and only if: no resource gets a second handler, for any resource restriction, unless the last successful ADDED or DELETED event of a local name that runs was ADDED |
| `InformerPipeline.WritesAreHandlers` | internal/pipeline/handlers.go:91-114 | An informer event is written at most once per handler of its resource, and exactly so when every pipeline lists its type |
| `InformerPipeline.OneWriteExactlyWhen` | internal/pipeline/step.go:54-56 | If and only if: where all pipelines list the type, every event is written at most once when no resource has a second handler |
| `InformerPipeline.DistinctHandlersExactlyWhen` | internal/pipeline/step.go:45-56 | If and only if: handlers are distinct when the names of the steps that run are |
| `InformerPipeline.RunnableMeaning` | internal/pipeline/step.go:46-52 | The steps that run are those before the first whose name does not parse |
| `InformerPipeline.EveryWatchedNameHasHandler` | internal/pipeline/pipeline.go:29-56 | For any lists and restriction, the names with a handler are those of the steps that run; every watched name has one if and only if every watched name parses |
| `InformerPipeline.DiscoveryIsAllOrNothing` | internal/pipeline/pipeline.go:58-76 | When every watched name parses, exactly the watched names have a started informer with a handler; otherwise no informer starts |
| `InformerPipeline.CrdEventsKeepDiscovery` | meshsync/handlers.go:493 | From lists that parse, exactly the watched names are discovered after any CRD events, as what they add always parses |
| `InformerPipeline.ServiceApisStartsNothing` | internal/config/default_config.go:103-107 | With `service.apis` in the local list, not blacklisted and not restricted away, no informer starts, whatever the CRD events |
| `DebouncedRestart.ReachableQuiet` | meshsync/handlers.go:27-39 | In every interleaving, the debounced calls running in any order, each restart fires a quiet period after the last call before it, and before the next one |
| `DebouncedRestart.BurstRestartsOnce` | meshsync/handlers.go:27-39 | Each restart answers the debounced calls up to one that was followed by five quiet seconds, and no call is the last of two restarts: a burst restarts once |
| `DebouncedRestart.FiresAfterQuiet` | meshsync/handlers.go:105-109 | Restarts are no more than signals; when one can fire, every signal of the last five seconds still waits for its debounced call |
| `DebouncedRestart.RestartsCarrySignals` | meshsync/handlers.go:27-39 | Every signal has one debounced call, in any order, and every restart carries the channel of the signal whose call was the last before it fired |
| `DebouncedRestart.ReachableTidy` | meshsync/handlers.go:41-113 | When restarts run alone, every channel but the current one is closed, none twice, and whatever waits remembers the current one |
| `DebouncedRestart.OneChannelOpen` | meshsync/handlers.go:46-86 | At most one pipeline channel is open in every reachable state, and none is closed twice |
| `DebouncedRestart.CleanupClosesAll` | meshsync/handlers.go:88-97 | The loop's cleanup leaves no channel open |
| `DebouncedRestart.ReopensExactlyWhenPending` | meshsync/handlers.go:88-113 | If and only if: after the cleanup, some continuation of the run opens a channel again when a request was pending |
| `DebouncedRestart.PendingRequestReopens` | meshsync/handlers.go:35-37 | With one pending, the run can go on to an open channel that nobody will close |
| `DebouncedRestart.StopDuringRestartClosesTwice` | meshsync/handlers.go:66-92 | A stop taken while a restart tests its channel closes the channel twice |
| `DebouncedRestart.FireDuringCleanupClosesTwice` | meshsync/handlers.go:66-92 | So does a timer that fires while the loop cleans up, with no restart at work when the stop is taken |
| `DebouncedRestart.OverlappingRestartsCloseTwice` | meshsync/handlers.go:62-71 | So do two restarts that overlap, with no stop |
| `DebouncedRestart.ClosedOnceExactlyWhen` | meshsync/handlers.go:62-93 | If and only if, in every interleaving: no channel is closed twice unless one is closed between another closer's own test and that closer's closing of it |
| `DebouncedRestart.SoloClosesOnce` | meshsync/handlers.go:62-71 | With restarts one at a time and the loop running, no channel is closed twice |
| `DebouncedRestart.SignalDuringRestartHangs` | meshsync/handlers.go:72-82 | A signal taken mid-restart leads to a restart that waits for informers on a channel nobody closes |
| `DebouncedRestart.HangsForGood` | meshsync/handlers.go:115-133 | With restarts one at a time, such a restart waits whatever happens, unless its rebuild fails |
| `DebouncedRestart.SignalDuringRestartLeaks` | meshsync/handlers.go:78-86 | If its rebuild fails, two channels stay open, with informers on the older one, and no restart is at work |
| `DebouncedRestart.FireBeforeCallLeaks` | meshsync/handlers.go:35-37 | So does a timer that fires between a signal and its debounced call, with no signal during a restart: the actions are given |
| `DebouncedRestart.RestartLeaksExactlyWhen` | meshsync/handlers.go:62-86 | If and only if: a restart leaves the channel before it open when the channel it remembers is not the current one; nothing else opens |
| `DebouncedRestart.LeakedInformersNeedFailure` | meshsync/handlers.go:115-133 | A restart leaves informers running on the channel before it only if its rebuild failed |
| `DebouncedRestart.OneOpenExactlyWhen` | meshsync/handlers.go:62-109 | If and only if: over a run with restarts one at a time and no stop, no channel but the current one is ever open when every restart remembers the current one |
| `DebouncedRestart.OneOpenFreelyExactlyWhen` | meshsync/handlers.go:41-113 | If and only if, in every interleaving, with stops: no channel but the current one is ever open when an earlier action has closed the current one at every restart |
| `CrdWatchBackoff.Jitter` | meshsync/handlers.go:370-376 | The delay is in the upper half of the duration, and zero for none |
| `CrdWatchBackoff.WatchCRDs` | meshsync/handlers.go:324-365 | The loop's backoff is min(2 s * 2^k, 120 s) for k unhealthy iterations since the last healthy one; each delay is the base after a healthy iteration and jittered from the backoff else |
| `CrdWatchBackoff.DelaysAreBounded` | meshsync/handlers.go:313-354 | Every delay is between one second and two minutes; after a watch that neither failed nor collapsed within two seconds it is two seconds |
| `CrdWatchBackoff.FailuresAreRateBound` | meshsync/handlers.go:313-354 | From a reset, n unhealthy iterations wait at least 2^n - 1 seconds for n up to 6, and 63 + 60 (n - 6) beyond |
| `CrdWatchBackoff.FailuresWaitBetween` | meshsync/handlers.go:340-354 | From the start or a watch that stayed up, n failing or collapsing watches wait between the least and the most total: up to 2 (2^n - 1) seconds for n up to 6, and 126 + 120 (n - 6) beyond |
| `CrdWatchBackoff.StartsAreSpaced` | meshsync/handlers.go:328-363 | Iteration starts are at least one second apart, per iteration between them |
| `Names.PipelineNameRoundTrip` | meshsync/handlers.go:493 | If and only if: parsing gives back the printed GVR when neither resource nor version has a dot, for every group |
| `Names.FieldsInOrder` | meshsync/handlers.go:493 | A printed name has resource, version and group in this order |
| `Names.ParsedNamesAreDistinct` | internal/pipeline/step.go:46 | Printing a parsed name gives the name, so two names never denote one GVR |
| `Names.PrintedNamesParse` | meshsync/handlers.go:493 | A printed GVR always parses |
| `Names.ExecIdRoundTrip` | meshsync/exec.go:82 | An exec id determines its four fields, for every pod name, when the other three have no dots |
| `Names.LogIdRoundTrip` | meshsync/logstream.go:29 | A log id determines its three fields, for every pod name, when the other two have no dots |
| `Names.ExecAndLogIdsDiffer` | meshsync/logstream.go:29 | No exec id is a log id, whatever the fields |
| `Names.SessionIdExamples` | meshsync/exec.go:82 | Session ids have kind, namespace, pod, container and, for exec, the request id in this order |
| `ResourceIdentity.IdentityRoundTrip` | pkg/model/model_converter.go:211-213 | Under Kubernetes naming the dotted text determines all five fields |
| `ResourceIdentity.IdentityInOrder` | pkg/model/model_converter.go:212 | Cluster id, kind, apiVersion, namespace and name come in this order |
| `ResourceIdentity.Base64RoundTrip` | pkg/model/model_converter.go:211 | Decoding the base64 text of section 4 of RFC 4648 gives back the bytes |
| `ResourceIdentity.Base64OfFoobar` | pkg/model/model_converter.go:211 | An example of section 10 of RFC 4648 |
| `ResourceIdentity.ResourceIdIsInjective` | pkg/model/model_converter.go:209-215 | Two well-named resources share an id if and only if all five fields agree |
| `ResourceIdentity.DottedNamespaceCollides` | pkg/model/model_converter.go:211-213 | A dot moved from the name into the namespace gives the same id |
| `ResourceRecords.SetID` | pkg/model/model_converter.go:209-239 | A resource with metadata and every nested record carry the id of its identity; one without metadata is left alone with its spec and status |
| `ResourceRecords.SetIDs` | pkg/model/model_converter.go:209-239 | After both got their ids, two well-named resources share one if and only if clusterId, kind, apiVersion, namespace and name all agree, and all their nested records carry it |

## Left out

- NATS and broker transport, health and ping code, Kubernetes clients, TTY and SPDY streaming, file and YAML writing: only their success or failure appears.
- `ParseList`: an abstract conversion; field extraction, URL handling, endpoint discovery and secret redaction are library work. It may differ for DELETE, as for Services.
- SHA-256 and JSON: an abstract partial hash; that it is injective is an assumption.
- client-go informers: a trace of notifications over a store; their replay to a late handler, and deltas compressed before delivery, do not appear.
- The pipeline engine: steps run one after the other; its time-out, waiting for caches to sync, and the result data of a discovery without steps are not modelled.
- `PipelineConfig.PublishTo`: the consumer ignores the subject an event is published on.
- A nil object in a notification: the handlers cast it before `publishItem` sees it and dereference it when logging, so only `PublishItem` models it.
- `slices.Delete` in place: `DeletePipeline` works on a sequence, so the aliasing of the old slice is not captured; the caller drops that slice.
- `Flush`: no other writer runs between its two phases in the method; `EveryWriteInOneEpoch` covers writers and flushes between the critical sections, but not how the slow parts of two flushes interleave at the real writer.
- CompositeWriter.Write: the error list is kept as one flag per writer; wrapping and joining of error texts is not modelled.
- The maps of exec and log requests: each request is one action of the session machine. The pipes of an exec session, the terminal size queue and the `active_sessions.exec` messages are not modelled; a broker subscribes at most once per generation and unsubscribes by subject, and stdin messages are counted, not read.
- Log session ids omit the request id, so a second request for the same container finds the first one's session; this is how `AddSession` answers, and no lemma calls it right or wrong.
- UUIDs: `UniqueID` is any value; that they are unique is not stated.
- UpdateInformer: its failing, its waiting for the old informers and the restart after either are modelled; what handlers a factory kept after a failure registers again is not, nor the race of two overlapping restarts on the factory field.
- Channels the cleanup tests and closes are read from the loop's variable at each step; that these reads race with a restart's write is not modelled beyond their order.
- A CRD event is its type and GVR: JSON decoding of the CRD, and the branch for empty version lists, only decide whether there is a GVR.
- Time in the debounce and back-off models is exact; the wait of an iteration is at least the delay drawn.
- Configuration maps, `validateLists`, default pipeline tables, pluralisation, flags, logging and error codes: constant data or simple tests.
- The designs under docs/design: not implemented in the code.
